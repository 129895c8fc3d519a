/** The layout of the sparse store: how large its files are and how many there are. */
module StoreLayout {
  import opened DivMod

  // ----- sizes, computed with real division -----

  function Ceil(r: real): int { -((-r).Floor) }

  /** `ceil(a * 1.0 / b)` */
  function CeilDiv(a: nat, b: nat): int
    requires b > 0
  {
    Ceil(a as real / b as real)
  }

  /** It is the least number of pieces of size `b` that cover `a`. */
  lemma CeilCovers(a: nat, b: nat)
    requires b > 0
    ensures CeilDiv(a, b) >= 0 && (CeilDiv(a, b) - 1) * b < a <= CeilDiv(a, b) * b
  {
    var n, q := CeilDiv(a, b), a as real / b as real;
    Divides(a as real, b as real);
    Between(q, (n - 1) as real, n as real, a as real, b as real);
    AsIntegers(n, b, a);
    NotNegative(n, b);
  }

  lemma Divides(a: real, b: real)
    requires b > 0.0
    ensures (a / b) * b == a
  {
  }

  lemma Between(q: real, x: real, y: real, a: real, b: real)
    requires b > 0.0 && q * b == a && x < q <= y
    ensures x * b < a <= y * b
  {
    Scale(x, q, b);
    ScaleUp(q, y, b);
  }

  lemma AsIntegers(n: int, b: nat, a: nat)
    requires (n - 1) as real * b as real < a as real <= n as real * b as real
    ensures (n - 1) * b < a <= n * b
  {
    ProductAsReal(n - 1, b);
    ProductAsReal(n, b);
  }

  lemma ScaleUp(x: real, y: real, b: real)
    requires x <= y && b > 0.0
    ensures x * b <= y * b
  {
  }

  lemma ProductAsReal(n: int, b: nat)
    ensures (n * b) as real == n as real * b as real
  {
  }

  lemma NotNegative(n: int, b: nat)
    requires b > 0 && n * b >= 0
    ensures n >= 0
  {
    if n < 0 {
      Negative(n, b);
    }
  }

  lemma Scale(x: real, y: real, b: real)
    requires x < y && b > 0.0
    ensures x * b < y * b
  {
  }

  lemma Negative(n: int, b: nat)
    requires n < 0 && b > 0
    ensures n * b < 0
  {
  }

  function RoundedFileSize(requested: nat, pageSize: nat): int
    requires pageSize > 0
  {
    pageSize * CeilDiv(requested, pageSize)
  }

  lemma RoundedUp(requested: nat, pageSize: nat)
    requires pageSize > 0
    ensures RoundedFileSize(requested, pageSize) >= 0
    ensures requested <= RoundedFileSize(requested, pageSize) < requested + pageSize
    ensures RoundedFileSize(requested, pageSize) % pageSize == 0
  {
    CeilCovers(requested, pageSize);
    MultipleMod(CeilDiv(requested, pageSize), pageSize);
  }

  /** A file index computed from an offset inside the store is inside the table. */
  lemma IndexInTable(off: nat, size: nat, fileSize: nat)
    requires fileSize > 0 && off < size
    ensures 0 <= off / fileSize < CeilDiv(size, fileSize)
  {
    CeilCovers(size, fileSize);
    var n, i := CeilDiv(size, fileSize), off / fileSize;
    assert off == fileSize * i + off % fileSize;
    MulLess(fileSize, i, n);
  }

  /** Reopening from the metadata gives a table of the same size, except that a store of size
      zero is created with no file and reopened with one. */
  lemma ReopenedTable(size: nat, fileSize: nat)
    requires fileSize > 0
    ensures var reopened := CeilDiv(if fileSize < size then size else fileSize, fileSize);
            if size == 0 then CeilDiv(size, fileSize) == 0 && reopened == 1 else reopened == CeilDiv(size, fileSize)
  {
    CeilOne(fileSize, fileSize);
    if 0 < size <= fileSize {
      CeilOne(size, fileSize);
    }
  }

  lemma CeilOne(size: nat, fileSize: nat)
    requires 0 < size <= fileSize
    ensures CeilDiv(size, fileSize) == 1
  {
    CeilCovers(size, fileSize);
    var n := CeilDiv(size, fileSize);
    MulLess(fileSize, n - 1, 1);
    MulLess(fileSize, 0, n);
  }

  /** An aligned page never spans two files. */
  lemma PageInOneFile(off: nat, pageSize: nat, fileSize: nat)
    requires pageSize > 0 && fileSize > 0 && off % pageSize == 0 && fileSize % pageSize == 0
    ensures off % fileSize + pageSize <= fileSize && (off % fileSize) % pageSize == 0
  {
    var q, f := off / pageSize, fileSize / pageSize;
    var i, o := off / fileSize, off % fileSize;
    var k := q - f * i;
    PagesOf(off, fileSize, pageSize, q, f, i, o);
    MultipleMod(k, pageSize);
    MulLess(pageSize, k, f);
    MulLess(pageSize, f, k + 1);
    assert pageSize * (k + 1) == pageSize * k + pageSize;
  }

  lemma PagesOf(off: int, fileSize: int, pageSize: int, q: int, f: int, i: int, o: int)
    requires off == pageSize * q && fileSize == pageSize * f && off == fileSize * i + o
    ensures o == pageSize * (q - f * i)
  {
    assert (pageSize * f) * i == pageSize * (f * i);
    assert pageSize * (q - f * i) == pageSize * q - pageSize * (f * i);
  }
}

/** The sparse multi-file store: fixed-size files, created and opened on demand, that stand
    for one flat array of bytes. */
module SparseStores {
  import opened Bytes
  import opened DivMod

  type Files = map<nat, seq<Byte>>

  /** An open store: the files in its directory, its geometry and mode, and the log of its
      open() calls; the file descriptor is the position in the log. */
  datatype Store = Store(files: Files, fileSize: nat, numFiles: nat, readOnly: bool, handles: seq<nat>)

  function Content(files: Files, i: nat): seq<Byte> { if i in files then files[i] else [] }

  /** posix_fallocate: grow to at least `n` bytes, with zeros. */
  function Padded(c: seq<Byte>, n: nat): seq<Byte> {
    if |c| >= n then c else c + seq(n - |c|, _ => 0)
  }

  /** open() with O_CREAT, and the allocation that follows unless read-only. */
  function Materialised(files: Files, i: nat, readOnly: bool, fileSize: nat): Files {
    files[i := if readOnly then Content(files, i) else Padded(Content(files, i), fileSize)]
  }

  function Opened(st: Store, i: nat): Store {
    if i in st.handles then st
    else st.(files := Materialised(st.files, i, st.readOnly, st.fileSize), handles := st.handles + [i])
  }

  /** pread: what there is of the requested bytes. */
  function Pread(c: seq<Byte>, nb: nat, at: nat): seq<Byte> {
    if at >= |c| then [] else if at + nb <= |c| then c[at..at + nb] else c[at..]
  }

  function Pwrite(c: seq<Byte>, data: seq<Byte>, at: nat): seq<Byte>
    requires at + |data| <= |c|
  {
    c[..at] + data + c[at + |data|..]
  }

  // ----- the flat view -----

  /** The byte at a position of a file; what was never written is zero. */
  function ByteIn(c: seq<Byte>, at: nat): Byte { if at < |c| then c[at] else 0 }

  /** The byte at a global offset. */
  function ByteAt(files: Files, fileSize: nat, off: nat): Byte
    requires fileSize > 0
  {
    ByteIn(Content(files, off / fileSize), off % fileSize)
  }

  /** Byte `b` of file `i` is byte `i * fileSize + b` of the flat array; what is not there is zero. */
  lemma FlatOrder(files: Files, fileSize: nat, i: nat, b: nat)
    requires b < fileSize
    ensures ByteAt(files, fileSize, fileSize * i + b) == if i in files && b < |files[i]| then files[i][b] else 0
  {
    ModUnique(fileSize * i + b, fileSize, i, b);
  }

  /** `nb` bytes from a global offset. */
  function FlatSlice(files: Files, fileSize: nat, off: nat, nb: nat): seq<Byte>
    requires fileSize > 0
  {
    seq(nb, (k: nat) => ByteAt(files, fileSize, off + k))
  }

  /** Opened files exist, each was opened once, and a writable one is fully allocated. */
  ghost predicate Legal(st: Store) {
    && st.fileSize > 0
    && (forall k :: 0 <= k < |st.handles| ==> st.handles[k] < st.numFiles && st.handles[k] in st.files)
    && (forall k :: 0 <= k < |st.handles| && !st.readOnly ==> |Content(st.files, st.handles[k])| >= st.fileSize)
    && (forall j, k :: 0 <= j < k < |st.handles| ==> st.handles[j] != st.handles[k])
  }

  lemma OpenedIsLegal(st: Store, i: nat)
    requires Legal(st) && i < st.numFiles
    ensures Legal(Opened(st, i)) && i in Opened(st, i).handles && i in Opened(st, i).files
    ensures !st.readOnly ==> |Content(Opened(st, i).files, i)| >= st.fileSize
  {
    if i in st.handles {
      var k :| 0 <= k < |st.handles| && st.handles[k] == i;
    } else {
      var st' := Opened(st, i);
      assert Content(st'.files, i) == st'.files[i];
      forall k | 0 <= k < |st'.handles| ensures st'.handles[k] < st.numFiles && st'.handles[k] in st'.files {
        assert k < |st.handles| ==> st'.handles[k] == st.handles[k];
      }
      forall k | 0 <= k < |st'.handles| && !st.readOnly ensures |Content(st'.files, st'.handles[k])| >= st.fileSize {
        if k < |st.handles| {
          assert st'.handles[k] == st.handles[k] != i;
          assert Content(st'.files, st.handles[k]) == Content(st.files, st.handles[k]);
        }
      }
    }
  }

  /** Opening, creating and allocating files changes no byte. */
  lemma OpenedKeepsBytes(st: Store, i: nat, off: nat)
    requires st.fileSize > 0
    ensures ByteAt(Opened(st, i).files, st.fileSize, off) == ByteAt(st.files, st.fileSize, off)
  {
  }

  // ----- reading -----

  function ReadResult(st: Store, off: nat, nb: nat): seq<Byte>
    requires st.fileSize > 0
  {
    var i := off / st.fileSize;
    Pread(Content(Opened(st, i).files, i), nb, off % st.fileSize)
  }

  /** The file behind the request holds all of it already. */
  predicate Backed(st: Store, off: nat, nb: nat)
    requires st.fileSize > 0
  {
    off % st.fileSize + nb <= |Content(st.files, off / st.fileSize)|
  }

  lemma OffsetWithin(off: nat, k: nat, fileSize: nat)
    requires fileSize > 0 && off % fileSize + k < fileSize
    ensures (off + k) / fileSize == off / fileSize && (off + k) % fileSize == off % fileSize + k
  {
    ModUnique(off + k, fileSize, off / fileSize, off % fileSize + k);
  }

  /** A request inside one file is answered in full iff the store is writable or the file is
      already there, and then with the bytes of the flat array. */
  lemma ReadIsFlat(st: Store, off: nat, nb: nat)
    requires Legal(st) && off / st.fileSize < st.numFiles && off % st.fileSize + nb <= st.fileSize && nb > 0
    ensures |ReadResult(st, off, nb)| == nb <==> !st.readOnly || Backed(st, off, nb)
    ensures !st.readOnly || Backed(st, off, nb) ==> ReadResult(st, off, nb) == FlatSlice(st.files, st.fileSize, off, nb)
  {
    var i := off / st.fileSize;
    OpenedIsLegal(st, i);
    var c := Content(Opened(st, i).files, i);
    if !st.readOnly || Backed(st, off, nb) {
      SliceOfContent(st, off, nb, c);
    }
  }

  lemma ByteInFile(st: Store, off: nat, k: nat, c: seq<Byte>)
    requires st.fileSize > 0 && c == Content(Opened(st, off / st.fileSize).files, off / st.fileSize)
    requires off % st.fileSize + k < st.fileSize && off % st.fileSize + k < |c|
    ensures ByteAt(st.files, st.fileSize, off + k) == c[off % st.fileSize + k]
  {
    OffsetWithin(off, k, st.fileSize);
    OpenedKeepsBytes(st, off / st.fileSize, off + k);
  }

  lemma SliceOfContent(st: Store, off: nat, nb: nat, c: seq<Byte>)
    requires st.fileSize > 0 && c == Content(Opened(st, off / st.fileSize).files, off / st.fileSize)
    requires off % st.fileSize + nb <= st.fileSize && off % st.fileSize + nb <= |c|
    ensures c[off % st.fileSize..off % st.fileSize + nb] == FlatSlice(st.files, st.fileSize, off, nb)
  {
    var at, flat := off % st.fileSize, FlatSlice(st.files, st.fileSize, off, nb);
    forall k | 0 <= k < nb ensures c[at..at + nb][k] == flat[k] {
      ByteInFile(st, off, k, c);
    }
  }

  // ----- writing -----

  function WriteResult(st: Store, off: nat, data: seq<Byte>): Store
    requires Legal(st) && off / st.fileSize < st.numFiles && off % st.fileSize + |data| <= st.fileSize
  {
    var i := off / st.fileSize;
    var st1 := Opened(st, i);
    if st.readOnly then st1
    else
      OpenedIsLegal(st, i);
      st1.(files := st1.files[i := Pwrite(Content(st1.files, i), data, off % st.fileSize)])
  }

  lemma WriteIsLegal(st: Store, off: nat, data: seq<Byte>)
    requires Legal(st) && off / st.fileSize < st.numFiles && off % st.fileSize + |data| <= st.fileSize
    ensures Legal(WriteResult(st, off, data))
  {
    var i := off / st.fileSize;
    OpenedIsLegal(st, i);
    var st1, st2 := Opened(st, i), WriteResult(st, off, data);
    if !st.readOnly {
      forall k | 0 <= k < |st2.handles|
        ensures |Content(st2.files, st2.handles[k])| >= st.fileSize && st2.handles[k] in st2.files
      {
        assert st1.handles[k] in st1.files;
      }
    }
  }

  /** A write to a writable store replaces exactly the given bytes of the flat array; a
      write to a read-only store replaces none. */
  lemma WriteIsFlat(st: Store, off: nat, data: seq<Byte>, p: nat)
    requires Legal(st) && off / st.fileSize < st.numFiles && off % st.fileSize + |data| <= st.fileSize
    ensures ByteAt(WriteResult(st, off, data).files, st.fileSize, p)
         == if !st.readOnly && off <= p < off + |data| then data[p - off] else ByteAt(st.files, st.fileSize, p)
  {
    var i, at, j, b := off / st.fileSize, off % st.fileSize, p / st.fileSize, p % st.fileSize;
    OpenedKeepsBytes(st, i, p);
    SameFile(st.fileSize, off, i, at, p, j, b, |data|);
    WriteInFile(st, i, at, data, j, b);
    WrittenFiles(st, off, data);
  }

  lemma WrittenFiles(st: Store, off: nat, data: seq<Byte>)
    requires Legal(st) && off / st.fileSize < st.numFiles && off % st.fileSize + |data| <= st.fileSize
    ensures var i, at := off / st.fileSize, off % st.fileSize;
            var st1 := Opened(st, i);
            && (st.readOnly ==> WriteResult(st, off, data).files == st1.files)
            && (!st.readOnly ==>
                  && at + |data| <= |Content(st1.files, i)|
                  && WriteResult(st, off, data).files == st1.files[i := Pwrite(Content(st1.files, i), data, at)])
  {
    OpenedIsLegal(st, off / st.fileSize);
  }

  /** The same in terms of files and positions. */
  lemma WriteInFile(st: Store, i: nat, at: nat, data: seq<Byte>, j: nat, b: nat)
    requires Legal(st) && i < st.numFiles && at + |data| <= st.fileSize
    ensures var st1 := Opened(st, i);
            !st.readOnly ==>
              && at + |data| <= |Content(st1.files, i)|
              && var files' := st1.files[i := Pwrite(Content(st1.files, i), data, at)];
                 ByteIn(Content(files', j), b)
                 == if j == i && at <= b < at + |data| then data[b - at] else ByteIn(Content(st1.files, j), b)
  {
    OpenedIsLegal(st, i);
    if !st.readOnly {
      PwriteBytes(Content(Opened(st, i).files, i), data, at, b);
    }
  }

  lemma PwriteBytes(c: seq<Byte>, data: seq<Byte>, at: nat, b: nat)
    requires at + |data| <= |c|
    ensures ByteIn(Pwrite(c, data, at), b) == if at <= b < at + |data| then data[b - at] else ByteIn(c, b)
  {
  }

  /** Inside one file, offsets and positions differ by the same amount. */
  lemma SameFile(fileSize: nat, off: nat, i: nat, at: nat, p: nat, j: nat, b: nat, n: nat)
    requires fileSize > 0 && i == off / fileSize && at == off % fileSize && j == p / fileSize && b == p % fileSize
    requires at + n <= fileSize
    ensures off <= p < off + n <==> j == i && at <= b < at + n
    ensures j == i ==> p - off == b - at
  {
    assert off == fileSize * i + at && p == fileSize * j + b;
    if off <= p < off + n {
      OffsetWithin(off, p - off, fileSize);
    }
  }
}

/** The store as an object over a directory. */
module SparseStoreClass {
  import opened Options
  import opened Bytes
  import opened StoreLayout
  import opened SparseStores

  /** A file has a descriptor iff it has been opened, and then the one it was opened with. */
  ghost predicate Table(descriptors: seq<int>, handles: seq<nat>) {
    && (forall i :: 0 <= i < |descriptors| ==> (descriptors[i] == -1 <==> i !in handles))
    && (forall i :: 0 <= i < |descriptors| && descriptors[i] != -1 ==>
          0 <= descriptors[i] < |handles| && handles[descriptors[i]] == i)
  }

  lemma TableGrows(descriptors: seq<int>, handles: seq<nat>, i: nat)
    requires Table(descriptors, handles) && i < |descriptors| && descriptors[i] == -1
    ensures Table(descriptors[i := |handles|], handles + [i])
  {
  }

  /** What the metadata file records. */
  datatype Meta = Meta(fileSize: nat, capacity: nat)

  /** The directory: absent, or with its metadata and the files that exist. */
  class Directory {
    var meta: Option<Meta>
    var files: Files

    constructor ()
      ensures meta == None && files == map[]
    {
      meta, files := None, map[];
    }
  }

  class SparseStore {
    const dir: Directory
    const fileSize: nat
    const numFiles: nat
    const readOnly: bool
    /** The descriptor of each file, -1 while it is not open. */
    var descriptors: seq<int>
    /** The files opened so far; a descriptor is a position in this list. */
    var handles: seq<nat>

    ghost function State(): Store
      reads this, dir
    {
      Store(dir.files, fileSize, numFiles, readOnly, handles)
    }

    ghost predicate Valid()
      reads this, dir
    {
      Legal(State()) && |descriptors| == numFiles && Table(descriptors, handles)
    }

    constructor (dir: Directory, fileSize: nat, numFiles: nat, readOnly: bool)
      requires fileSize > 0
      ensures Valid() && this.dir == dir && handles == []
      ensures this.fileSize == fileSize && this.numFiles == numFiles && this.readOnly == readOnly
    {
      this.dir, this.fileSize, this.numFiles, this.readOnly := dir, fileSize, numFiles, readOnly;
      descriptors, handles := seq(numFiles, _ => -1), [];
    }

    method GetFd(off: nat) returns (fd: nat, at: nat)
      requires Valid() && off / fileSize < numFiles
      modifies this, dir`files
      ensures Valid() && State() == Opened(old(State()), off / fileSize)
      ensures fd < |handles| && handles[fd] == off / fileSize && at == off % fileSize
    {
      var i := off / fileSize;
      at := off % fileSize;
      if descriptors[i] == -1 {
        OpenFile(i);
      }
      fd := descriptors[i];
    }

    method OpenFile(i: nat)
      requires Valid() && i < numFiles && descriptors[i] == -1
      modifies this, dir`files
      ensures Valid() && State() == Opened(old(State()), i) && descriptors[i] != -1
    {
      OpenedIsLegal(State(), i);
      TableGrows(descriptors, handles, i);
      dir.files := Materialised(dir.files, i, readOnly, fileSize);
      descriptors := descriptors[i := |handles|];
      handles := handles + [i];
    }

    method ReadFromStore(nb: nat, off: nat) returns (data: seq<Byte>)
      requires Valid() && off / fileSize < numFiles
      modifies this, dir`files
      ensures Valid() && State() == Opened(old(State()), off / fileSize)
      ensures data == ReadResult(old(State()), off, nb)
    {
      var fd, at := GetFd(off);
      data := Pread(dir.files[handles[fd]], nb, at);
    }

    method WriteToStore(data: seq<Byte>, off: nat) returns (ok: bool)
      requires Valid() && off / fileSize < numFiles && off % fileSize + |data| <= fileSize
      modifies this, dir`files
      ensures Valid() && State() == WriteResult(old(State()), off, data)
      ensures ok <==> !readOnly
    {
      WriteIsLegal(State(), off, data);
      ghost var before := State();
      var fd, at := GetFd(off);
      if readOnly {
        return false;
      }
      OpenedIsLegal(before, off / fileSize);
      var i := handles[fd];
      dir.files := dir.files[i := Pwrite(dir.files[i], data, at)];
      ok := true;
    }
  }

  /** A store as it is created: no file exists. */
  ghost function Created(size: nat, pageSize: nat, requested: nat): (st: Store)
    requires pageSize > 0 && requested > 0
    ensures st.fileSize > 0
  {
    RoundedUp(requested, pageSize);
    CeilCovers(size, RoundedFileSize(requested, pageSize));
    Store(map[], RoundedFileSize(requested, pageSize), CeilDiv(size, RoundedFileSize(requested, pageSize)), false, [])
  }

  /** Create mode.  It fails when the directory exists; otherwise the file size is rounded up
      to whole pages and every offset below `size` has a place in the table. */
  method CreateStore(dir: Directory, size: nat, pageSize: nat, requested: nat) returns (r: Option<SparseStore>)
    requires pageSize > 0 && requested > 0
    modifies dir
    ensures r == None <==> old(dir.meta) != None
    ensures r == None ==> dir.meta == old(dir.meta) && dir.files == old(dir.files)
    ensures r.Some? ==> r.value.Valid() && fresh(r.value) && r.value.dir == dir && !r.value.readOnly
    ensures r.Some? ==> r.value.fileSize % pageSize == 0 && requested <= r.value.fileSize < requested + pageSize
    ensures r.Some? ==> forall off: nat :: off < size ==> off / r.value.fileSize < r.value.numFiles
    ensures r.Some? ==> dir.meta.Some? && dir.meta.value.fileSize == r.value.fileSize && size <= dir.meta.value.capacity
    ensures r.Some? ==> r.value.State() == Created(size, pageSize, requested)
    ensures r.Some? && size > 0 ==> r.value.numFiles == CeilDiv(dir.meta.value.capacity, r.value.fileSize)
    ensures r.Some? && size == 0 ==> r.value.numFiles == 0 && CeilDiv(dir.meta.value.capacity, r.value.fileSize) == 1
  {
    if dir.meta.Some? {
      return None;
    }
    RoundedUp(requested, pageSize);
    var fileSize: nat := RoundedFileSize(requested, pageSize);
    CeilCovers(size, fileSize);
    var numFiles: nat := CeilDiv(size, fileSize);
    forall off: nat | off < size ensures off / fileSize < numFiles {
      IndexInTable(off, size, fileSize);
    }
    ReopenedTable(size, fileSize);
    dir.meta := Some(Meta(fileSize, if fileSize < size then size else fileSize));
    dir.files := map[];
    var store := new SparseStore(dir, fileSize, numFiles, false);
    r := Some(store);
  }

  /** Open mode.  The geometry comes from the metadata; no file is touched. */
  method OpenStore(dir: Directory, readOnly: bool) returns (r: Option<SparseStore>)
    requires dir.meta.Some? ==> dir.meta.value.fileSize > 0
    ensures r == None <==> dir.meta == None
    ensures r.Some? ==> r.value.Valid() && fresh(r.value) && r.value.dir == dir
    ensures r.Some? ==> r.value.readOnly == readOnly && r.value.handles == []
    ensures r.Some? ==> r.value.fileSize == dir.meta.value.fileSize
    ensures r.Some? ==> r.value.numFiles == CeilDiv(dir.meta.value.capacity, dir.meta.value.fileSize)
  {
    if dir.meta == None {
      return None;
    }
    var fileSize, capacity := dir.meta.value.fileSize, dir.meta.value.capacity;
    CeilCovers(capacity, fileSize);
    var store := new SparseStore(dir, fileSize, CeilDiv(capacity, fileSize), readOnly);
    r := Some(store);
  }
}

/** Whole histories of page reads, page writes, closing and reopening. */
module SparseStoreRuns {
  import opened Bytes
  import opened DivMod
  import opened StoreLayout
  import opened SparseStores

  datatype Op =
    | ReadPage(off: nat)
    | WritePage(off: nat, data: seq<Byte>)
    | Reopen(readOnly: bool)

  /** Whole aligned pages inside the store. */
  predicate InRange(st: Store, pageSize: nat, op: Op)
    requires pageSize > 0 && st.fileSize > 0
  {
    match op
    case ReadPage(off) => off % pageSize == 0 && off / st.fileSize < st.numFiles
    case WritePage(off, data) => off % pageSize == 0 && off / st.fileSize < st.numFiles && |data| == pageSize
    case Reopen(_) => true
  }

  ghost predicate Ready(st: Store, pageSize: nat) {
    pageSize > 0 && Legal(st) && st.fileSize % pageSize == 0
  }

  function Step(st: Store, pageSize: nat, op: Op): Store
    requires Ready(st, pageSize) && InRange(st, pageSize, op)
  {
    match op
    case ReadPage(off) => Opened(st, off / st.fileSize)
    case WritePage(off, data) => PageInOneFile(off, pageSize, st.fileSize); WriteResult(st, off, data)
    case Reopen(readOnly) => st.(readOnly := readOnly, handles := [])
  }

  lemma StepKeeps(st: Store, pageSize: nat, op: Op)
    requires Ready(st, pageSize) && InRange(st, pageSize, op)
    ensures Ready(Step(st, pageSize, op), pageSize)
    ensures Step(st, pageSize, op).fileSize == st.fileSize && Step(st, pageSize, op).numFiles == st.numFiles
  {
    match op
    case ReadPage(off) => OpenedIsLegal(st, off / st.fileSize);
    case WritePage(off, data) => PageInOneFile(off, pageSize, st.fileSize); WriteIsLegal(st, off, data);
    case Reopen(_) =>
  }

  // ----- the flat array -----

  /** One flat array of bytes and a mode. */
  datatype Flat = Flat(mem: seq<Byte>, readOnly: bool)

  function FlatStep(f: Flat, op: Op): Flat {
    match op
    case ReadPage(_) => f
    case WritePage(off, data) =>
      if f.readOnly || off + |data| > |f.mem| then f
      else f.(mem := f.mem[..off] + data + f.mem[off + |data|..])
    case Reopen(readOnly) => f.(readOnly := readOnly)
  }

  ghost predicate Represents(st: Store, f: Flat) {
    && st.fileSize > 0 && |f.mem| == st.fileSize * st.numFiles && f.readOnly == st.readOnly
    && forall p :: 0 <= p < |f.mem| ==> f.mem[p] == ByteAt(st.files, st.fileSize, p)
  }

  lemma PageInStore(st: Store, off: nat, pageSize: nat)
    requires Ready(st, pageSize) && off % pageSize == 0 && off / st.fileSize < st.numFiles
    ensures off + pageSize <= st.fileSize * st.numFiles && off % st.fileSize + pageSize <= st.fileSize
  {
    PageInOneFile(off, pageSize, st.fileSize);
    var i := off / st.fileSize;
    assert off == st.fileSize * i + off % st.fileSize;
    MulLess(st.fileSize, st.numFiles, i + 1);
    assert st.fileSize * (i + 1) == st.fileSize * i + st.fileSize;
  }

  lemma StepRepresents(st: Store, pageSize: nat, op: Op, f: Flat)
    requires Ready(st, pageSize) && InRange(st, pageSize, op) && Represents(st, f)
    ensures Represents(Step(st, pageSize, op), FlatStep(f, op))
  {
    match op
    case ReadPage(off) => OpenedRepresents(st, off / st.fileSize, f);
    case WritePage(off, data) =>
      PageInStore(st, off, pageSize);
      WriteRepresents(st, off, data, f);
    case Reopen(readOnly) => ReopenedRepresents(st, readOnly, f);
  }

  lemma ReopenedRepresents(st: Store, readOnly: bool, f: Flat)
    requires Represents(st, f)
    ensures Represents(st.(readOnly := readOnly, handles := []), f.(readOnly := readOnly))
  {
  }

  lemma OpenedRepresents(st: Store, i: nat, f: Flat)
    requires Represents(st, f)
    ensures Represents(Opened(st, i), f)
  {
    forall p | 0 <= p < |f.mem| ensures f.mem[p] == ByteAt(Opened(st, i).files, st.fileSize, p) {
      OpenedKeepsBytes(st, i, p);
    }
  }

  lemma WriteRepresents(st: Store, off: nat, data: seq<Byte>, f: Flat)
    requires Legal(st) && off / st.fileSize < st.numFiles && off % st.fileSize + |data| <= st.fileSize
    requires Represents(st, f) && off + |data| <= |f.mem|
    ensures Represents(WriteResult(st, off, data), FlatStep(f, WritePage(off, data)))
  {
    var st', f' := WriteResult(st, off, data), FlatStep(f, WritePage(off, data));
    WriteShape(st, off, data);
    forall p | 0 <= p < |f.mem| ensures f'.mem[p] == ByteAt(st'.files, st.fileSize, p) {
      WriteIsFlat(st, off, data, p);
      FlatWriteAt(f, off, data, p);
    }
  }

  lemma WriteShape(st: Store, off: nat, data: seq<Byte>)
    requires Legal(st) && off / st.fileSize < st.numFiles && off % st.fileSize + |data| <= st.fileSize
    ensures var st' := WriteResult(st, off, data);
            st'.fileSize == st.fileSize && st'.numFiles == st.numFiles && st'.readOnly == st.readOnly
  {
  }

  lemma FlatWriteAt(f: Flat, off: nat, data: seq<Byte>, p: nat)
    requires off + |data| <= |f.mem| && p < |f.mem|
    ensures var f' := FlatStep(f, WritePage(off, data));
            && |f'.mem| == |f.mem|
            && f'.mem[p] == if !f.readOnly && off <= p < off + |data| then data[p - off] else f.mem[p]
  {
  }

  /** What a read delivers: in full iff the store is writable or the file is already there,
      and then the bytes of the flat array. */
  ghost predicate ReadAgrees(st: Store, pageSize: nat, off: nat, f: Flat)
    requires st.fileSize > 0
  {
    var out := ReadResult(st, off, pageSize);
    && (|out| == pageSize <==> !st.readOnly || Backed(st, off, pageSize))
    && (|out| == pageSize ==> off + pageSize <= |f.mem| && out == f.mem[off..off + pageSize])
  }

  lemma ReadAgreesWithFlat(st: Store, pageSize: nat, off: nat, f: Flat)
    requires Ready(st, pageSize) && InRange(st, pageSize, ReadPage(off)) && Represents(st, f)
    ensures ReadAgrees(st, pageSize, off, f)
  {
    PageInStore(st, off, pageSize);
    ReadIsFlat(st, off, pageSize);
  }

  // ----- histories -----

  ghost predicate AllInRange(st: Store, pageSize: nat, ops: seq<Op>)
    requires Ready(st, pageSize)
  {
    forall k :: 0 <= k < |ops| ==> InRange(st, pageSize, ops[k])
  }

  /** At every step of the history the store answers as the flat array would. */
  ghost predicate RunAgrees(st: Store, pageSize: nat, ops: seq<Op>, f: Flat)
    requires Ready(st, pageSize) && AllInRange(st, pageSize, ops)
    decreases |ops|
  {
    ops == [] ||
    (&& Represents(st, f)
     && (ops[0].ReadPage? ==> ReadAgrees(st, pageSize, ops[0].off, f))
     && (StepKeeps(st, pageSize, ops[0]);
         RunAgrees(Step(st, pageSize, ops[0]), pageSize, ops[1..], FlatStep(f, ops[0]))))
  }

  /** Every history of page reads, page writes and reopenings refines the flat array. */
  lemma {:induction false} StoreRefinesFlatArray(st: Store, pageSize: nat, ops: seq<Op>, f: Flat)
    requires Ready(st, pageSize) && AllInRange(st, pageSize, ops) && Represents(st, f)
    ensures RunAgrees(st, pageSize, ops, f)
    decreases |ops|
  {
    if ops != [] {
      StepKeeps(st, pageSize, ops[0]);
      StepRepresents(st, pageSize, ops[0], f);
      if ops[0].ReadPage? {
        ReadAgreesWithFlat(st, pageSize, ops[0].off, f);
      }
      StoreRefinesFlatArray(Step(st, pageSize, ops[0]), pageSize, ops[1..], FlatStep(f, ops[0]));
    }
  }

  function Run(st: Store, pageSize: nat, ops: seq<Op>): (r: Store)
    requires Ready(st, pageSize) && AllInRange(st, pageSize, ops)
    ensures Ready(r, pageSize) && r.fileSize == st.fileSize && r.numFiles == st.numFiles
    decreases |ops|
  {
    if ops == [] then st
    else StepKeeps(st, pageSize, ops[0]); Run(Step(st, pageSize, ops[0]), pageSize, ops[1..])
  }

  /** The history has no write to the page at `off`. */
  predicate Untouched(ops: seq<Op>, off: nat) {
    forall k :: 0 <= k < |ops| && ops[k].WritePage? ==> ops[k].off != off
  }

  /** Different aligned pages do not overlap. */
  lemma PagesAreDisjoint(a: nat, b: nat, pageSize: nat)
    requires pageSize > 0 && a % pageSize == 0 && b % pageSize == 0 && a != b
    ensures a + pageSize <= b || b + pageSize <= a
  {
    var x, y := a / pageSize, b / pageSize;
    assert a == pageSize * x && b == pageSize * y;
    assert pageSize * (x + 1) == a + pageSize && pageSize * (y + 1) == b + pageSize;
    MulLess(pageSize, y, x + 1);
    MulLess(pageSize, x, y + 1);
    MulLess(pageSize, x, y);
  }

  ghost predicate PageIs(st: Store, off: nat, data: seq<Byte>)
    requires st.fileSize > 0
  {
    forall k :: 0 <= k < |data| ==> ByteAt(st.files, st.fileSize, off + k) == data[k]
  }

  lemma StepLeaves(st: Store, pageSize: nat, op: Op, off: nat, data: seq<Byte>)
    requires Ready(st, pageSize) && InRange(st, pageSize, op) && (op.WritePage? ==> op.off != off)
    requires off % pageSize == 0 && |data| == pageSize && PageIs(st, off, data)
    ensures PageIs(Step(st, pageSize, op), off, data)
  {
    match op
    case ReadPage(o) => OpenedLeaves(st, o / st.fileSize, off, data);
    case WritePage(o, d) =>
      PageInOneFile(o, pageSize, st.fileSize);
      PagesAreDisjoint(o, off, pageSize);
      WriteLeaves(st, o, d, off, data);
    case Reopen(_) =>
  }

  lemma OpenedLeaves(st: Store, i: nat, off: nat, data: seq<Byte>)
    requires st.fileSize > 0 && PageIs(st, off, data)
    ensures PageIs(Opened(st, i), off, data)
  {
    forall k | 0 <= k < |data| ensures ByteAt(Opened(st, i).files, st.fileSize, off + k) == data[k] {
      OpenedKeepsBytes(st, i, off + k);
    }
  }

  lemma WriteLeaves(st: Store, o: nat, d: seq<Byte>, off: nat, data: seq<Byte>)
    requires Legal(st) && o / st.fileSize < st.numFiles && o % st.fileSize + |d| <= st.fileSize && PageIs(st, off, data)
    requires off + |data| <= o || o + |d| <= off
    ensures WriteResult(st, o, d).fileSize == st.fileSize && PageIs(WriteResult(st, o, d), off, data)
  {
    forall k | 0 <= k < |data| ensures ByteAt(WriteResult(st, o, d).files, st.fileSize, off + k) == data[k] {
      WriteIsFlat(st, o, d, off + k);
    }
  }

  lemma {:induction false} UntouchedStays(st: Store, pageSize: nat, ops: seq<Op>, off: nat, data: seq<Byte>)
    requires Ready(st, pageSize) && AllInRange(st, pageSize, ops) && Untouched(ops, off)
    requires off % pageSize == 0 && |data| == pageSize && PageIs(st, off, data)
    ensures PageIs(Run(st, pageSize, ops), off, data)
    decreases |ops|
  {
    if ops != [] {
      StepKeeps(st, pageSize, ops[0]);
      StepLeaves(st, pageSize, ops[0], off, data);
      UntouchedStays(Step(st, pageSize, ops[0]), pageSize, ops[1..], off, data);
    }
  }

  /** A write puts the data in place and leaves the page backed by its file. */
  lemma WriteTakesEffect(st: Store, pageSize: nat, off: nat, data: seq<Byte>)
    requires Ready(st, pageSize) && !st.readOnly && InRange(st, pageSize, WritePage(off, data))
    ensures PageIs(Step(st, pageSize, WritePage(off, data)), off, data)
    ensures Backed(Step(st, pageSize, WritePage(off, data)), off, pageSize)
  {
    PageInOneFile(off, pageSize, st.fileSize);
    WriteSetsPage(st, off, data);
    WriteIsBacked(st, off, data);
  }

  lemma WriteSetsPage(st: Store, off: nat, data: seq<Byte>)
    requires Legal(st) && off / st.fileSize < st.numFiles && off % st.fileSize + |data| <= st.fileSize && !st.readOnly
    ensures WriteResult(st, off, data).fileSize == st.fileSize && PageIs(WriteResult(st, off, data), off, data)
  {
    forall k | 0 <= k < |data| ensures ByteAt(WriteResult(st, off, data).files, st.fileSize, off + k) == data[k] {
      WriteIsFlat(st, off, data, off + k);
    }
  }

  lemma WriteIsBacked(st: Store, off: nat, data: seq<Byte>)
    requires Legal(st) && off / st.fileSize < st.numFiles && off % st.fileSize + |data| <= st.fileSize && !st.readOnly
    ensures Backed(WriteResult(st, off, data), off, |data|) && WriteResult(st, off, data).fileSize == st.fileSize
  {
    OpenedIsLegal(st, off / st.fileSize);
  }

  lemma ReadOfPage(st: Store, pageSize: nat, off: nat, data: seq<Byte>)
    requires Ready(st, pageSize) && InRange(st, pageSize, ReadPage(off)) && |data| == pageSize && PageIs(st, off, data)
    ensures |ReadResult(st, off, pageSize)| == pageSize <==> !st.readOnly || Backed(st, off, pageSize)
    ensures !st.readOnly || Backed(st, off, pageSize) ==> ReadResult(st, off, pageSize) == data
  {
    PageInOneFile(off, pageSize, st.fileSize);
    ReadIsFlat(st, off, pageSize);
    assert FlatSlice(st.files, st.fileSize, off, pageSize) == data;
  }

  /** A page read returns what was last written there, whatever other pages were read or
      written and however often the store was closed and reopened in either mode. */
  lemma LastWriteIsRead(st: Store, pageSize: nat, off: nat, data: seq<Byte>, ops: seq<Op>)
    requires Ready(st, pageSize) && !st.readOnly && InRange(st, pageSize, WritePage(off, data))
    requires AllInRange(st, pageSize, ops) && Untouched(ops, off)
    ensures var st1 := Step(st, pageSize, WritePage(off, data));
            Ready(st1, pageSize) && AllInRange(st1, pageSize, ops) &&
            ReadResult(Run(st1, pageSize, ops), off, pageSize) == data
  {
    var st1 := Step(st, pageSize, WritePage(off, data));
    StepKeeps(st, pageSize, WritePage(off, data));
    WriteTakesEffect(st, pageSize, off, data);
    UntouchedStays(st1, pageSize, ops, off, data);
    FilesOnlyGrow(st1, pageSize, ops, off / st.fileSize);
    ReadOfPage(Run(st1, pageSize, ops), pageSize, off, data);
  }

  lemma StepGrows(st: Store, pageSize: nat, op: Op, i: nat)
    requires Ready(st, pageSize) && InRange(st, pageSize, op)
    ensures |Content(Step(st, pageSize, op).files, i)| >= |Content(st.files, i)|
  {
    if op.WritePage? {
      PageInOneFile(op.off, pageSize, st.fileSize);
      OpenedIsLegal(st, op.off / st.fileSize);
    }
  }

  /** No step shortens a file. */
  lemma {:induction false} FilesOnlyGrow(st: Store, pageSize: nat, ops: seq<Op>, i: nat)
    requires Ready(st, pageSize) && AllInRange(st, pageSize, ops)
    ensures |Content(Run(st, pageSize, ops).files, i)| >= |Content(st.files, i)|
    decreases |ops|
  {
    if ops != [] {
      StepKeeps(st, pageSize, ops[0]);
      StepGrows(st, pageSize, ops[0], i);
      FilesOnlyGrow(Step(st, pageSize, ops[0]), pageSize, ops[1..], i);
    }
  }

  /** The read-only exception is real: a page that was never written is not a page of zeros
      but a short read when the store is opened read-only. */
  lemma ShortReadExample()
    ensures var st := Store(map[], 8, 1, true, []);
            Ready(st, 8) && ReadResult(st, 0, 8) == [] && ByteAt(st.files, 8, 0) == 0
  {
  }
}

/** The double-checked opening of files by many threads at once. */
module FileOpening {
  import opened Options

  /** Where a thread is inside the descriptor lookup for file `i`. */
  datatype Pc =
    | Start(i: nat)
    | Waiting(i: nat)              // saw -1, wants the mutex
    | Holding(i: nat)              // has the mutex, about to check again
    | Created(i: nat, fd: int)     // open() returned
    | Allocated(i: nat, fd: int)   // and the file has its full size
    | Leaving(i: nat)              // about to release the mutex
    | Reading(i: nat)              // about to read the table
    | Done(i: nat, fd: int)

  datatype State = State(ids: seq<int>, opens: seq<nat>, ready: set<nat>, lock: Option<nat>, nextFd: nat, pcs: seq<Pc>)

  predicate Start0(s: State) {
    && |s.ids| == |s.opens| && s.ready == {} && s.lock == None
    && (forall i :: 0 <= i < |s.ids| ==> s.ids[i] == -1 && s.opens[i] == 0)
    && (forall p :: 0 <= p < |s.pcs| ==> s.pcs[p].Start? && s.pcs[p].i < |s.ids|)
  }

  function At(s: State, p: nat, pc: Pc): State
    requires p < |s.pcs|
  {
    s.(pcs := s.pcs[p := pc])
  }

  /** The next step of thread `p`; a thread that waits for a held mutex, or is done, stays. */
  function StepOf(s: State, p: nat): State
    requires p < |s.pcs| && s.pcs[p].i < |s.ids| == |s.opens|
  {
    var i := s.pcs[p].i;
    match s.pcs[p]
    case Start(_) => At(s, p, if s.ids[i] == -1 then Waiting(i) else Reading(i))
    case Waiting(_) => if s.lock == None then At(s, p, Holding(i)).(lock := Some(p)) else s
    case Holding(_) =>
      if s.ids[i] == -1
      then At(s, p, Created(i, s.nextFd)).(opens := s.opens[i := s.opens[i] + 1], nextFd := s.nextFd + 1)
      else At(s, p, Leaving(i))
    case Created(_, fd) => At(s, p, Allocated(i, fd)).(ready := s.ready + {i})
    case Allocated(_, fd) => At(s, p, Leaving(i)).(ids := s.ids[i := fd])
    case Leaving(_) => At(s, p, Reading(i)).(lock := None)
    case Reading(_) => At(s, p, Done(i, s.ids[i]))
    case Done(_, _) => s
  }

  predicate Inside(pc: Pc) { pc.Holding? || pc.Created? || pc.Allocated? || pc.Leaving? }

  predicate PcOk(s: State, pc: Pc)
    requires |s.ids| == |s.opens|
  {
    && pc.i < |s.ids|
    && (pc.Created? ==> s.ids[pc.i] == -1 && pc.fd >= 0)
    && (pc.Allocated? ==> s.ids[pc.i] == -1 && pc.fd >= 0 && pc.i in s.ready)
    && (pc.Leaving? || pc.Reading? ==> s.ids[pc.i] != -1)
    && (pc.Done? ==> pc.fd == s.ids[pc.i] != -1)
  }

  predicate InFlight(s: State, i: nat) {
    && s.lock.Some? && s.lock.value < |s.pcs|
    && var pc := s.pcs[s.lock.value]; (pc.Created? || pc.Allocated?) && pc.i == i
  }

  ghost predicate Inv(s: State) {
    && |s.ids| == |s.opens|
    && (forall p :: 0 <= p < |s.pcs| ==> PcOk(s, s.pcs[p]))
    && (forall p :: 0 <= p < |s.pcs| ==> (Inside(s.pcs[p]) <==> s.lock == Some(p)))
    && (s.lock.Some? ==> s.lock.value < |s.pcs|)
    && (forall i :: 0 <= i < |s.ids| ==> s.opens[i] == if s.ids[i] != -1 || InFlight(s, i) then 1 else 0)
    && (forall i :: 0 <= i < |s.ids| && s.ids[i] != -1 ==> i in s.ready)
  }

  lemma StepKeeps(s: State, p: nat)
    requires Inv(s) && p < |s.pcs|
    ensures Inv(StepOf(s, p))
  {
    var s' := StepOf(s, p);
    assert PcOk(s, s.pcs[p]);
    forall q | 0 <= q < |s.pcs| ensures PcOk(s', s'.pcs[q]) {
      assert PcOk(s, s.pcs[q]);
      assert Inside(s.pcs[q]) <==> s.lock == Some(q);
    }
  }

  /** The state after a schedule: a list of thread numbers. */
  function RunOf(s: State, schedule: seq<nat>): State
    requires Inv(s) && forall k :: 0 <= k < |schedule| ==> schedule[k] < |s.pcs|
    decreases |schedule|
  {
    if schedule == [] then s
    else StepKeeps(s, schedule[0]); RunOf(StepOf(s, schedule[0]), schedule[1..])
  }

  lemma {:induction false} RunKeeps(s: State, schedule: seq<nat>)
    requires Inv(s) && forall k :: 0 <= k < |schedule| ==> schedule[k] < |s.pcs|
    ensures Inv(RunOf(s, schedule))
    decreases |schedule|
  {
    if schedule != [] {
      StepKeeps(s, schedule[0]);
      RunKeeps(StepOf(s, schedule[0]), schedule[1..]);
    }
  }

  lemma StartHolds(s: State)
    requires Start0(s)
    ensures Inv(s)
  {
    assert forall p :: 0 <= p < |s.pcs| ==> s.pcs[p].Start?;
  }

  /** Under every schedule each file is opened at most once, and every thread that comes back
      has the one descriptor of its file, already allocated. */
  lemma OpenedAtMostOnce(s: State, schedule: seq<nat>)
    requires Start0(s) && forall k :: 0 <= k < |schedule| ==> schedule[k] < |s.pcs|
    ensures Inv(s)
    ensures var t := RunOf(s, schedule);
            && (forall i :: 0 <= i < |t.opens| ==> t.opens[i] <= 1)
            && (forall p :: 0 <= p < |t.pcs| && t.pcs[p].Done? ==>
                  t.pcs[p].i < |t.ids| && t.pcs[p].fd == t.ids[t.pcs[p].i] != -1 && t.pcs[p].i in t.ready)
  {
    StartHolds(s);
    RunKeeps(s, schedule);
    var t := RunOf(s, schedule);
    forall p | 0 <= p < |t.pcs| && t.pcs[p].Done?
      ensures t.pcs[p].i < |t.ids| && t.pcs[p].fd == t.ids[t.pcs[p].i] != -1 && t.pcs[p].i in t.ready
    {
      assert PcOk(t, t.pcs[p]);
    }
  }
}
