/** Whole histories of a store object: created, read, written, closed and reopened from its
    metadata, against one zero-filled flat array. */
module SparseStoreReplay {
  import opened Options
  import opened Bytes
  import opened StoreLayout
  import opened SparseStores
  import opened SparseStoreClass
  import opened SparseStoreRuns

  // ----- one operation on the object -----

  /** The object is valid and its table has the size its metadata gives. */
  ghost predicate Tied(s: SparseStore, pageSize: nat)
    reads s, s.dir
  {
    && s.Valid() && pageSize > 0 && s.fileSize % pageSize == 0
    && s.dir.meta.Some? && s.dir.meta.value.fileSize == s.fileSize
    && s.numFiles == CeilDiv(s.dir.meta.value.capacity, s.fileSize)
  }

  /** What a read answers; other operations answer nothing. */
  ghost function Answer(st: Store, pageSize: nat, op: Op): seq<seq<Byte>>
    requires st.fileSize > 0
  {
    if op.ReadPage? then [ReadResult(st, op.off, pageSize)] else []
  }

  /** Reopening makes a new object from the metadata; its state is the one the specification
      of reopening gives. */
  method Apply(s: SparseStore, pageSize: nat, op: Op) returns (t: SparseStore, answer: seq<seq<Byte>>)
    requires Tied(s, pageSize) && InRange(s.State(), pageSize, op)
    modifies s, s.dir`files
    ensures Tied(t, pageSize) && t.dir == s.dir && (t == s || fresh(t))
    ensures t.State() == Step(old(s.State()), pageSize, op) && answer == Answer(old(s.State()), pageSize, op)
  {
    match op {
      case ReadPage(off) =>
        var data := s.ReadFromStore(pageSize, off);
        t, answer := s, [data];
      case WritePage(off, data) =>
        PageInOneFile(off, pageSize, s.fileSize);
        var ok := s.WriteToStore(data, off);
        t, answer := s, [];
      case Reopen(readOnly) =>
        var r := OpenStore(s.dir, readOnly);
        t, answer := r.value, [];
    }
  }

  // ----- the reference -----

  /** A flat array, the mode, and the files that have been allocated. */
  datatype Reference = Reference(flat: Flat, full: set<nat>)

  function RefStep(f: Reference, fileSize: nat, op: Op): Reference
    requires fileSize > 0
  {
    Reference(FlatStep(f.flat, op),
              if op.Reopen? || f.flat.readOnly then f.full else f.full + {op.off / fileSize})
  }

  /** A read gives the bytes of the array; only a read-only store with no file yet gives none. */
  function RefAnswer(f: Reference, fileSize: nat, pageSize: nat, op: Op): seq<seq<Byte>>
    requires fileSize > 0
  {
    if !op.ReadPage? then []
    else if f.flat.readOnly && op.off / fileSize !in f.full then [[]]
    else if op.off + pageSize <= |f.flat.mem| then [f.flat.mem[op.off..op.off + pageSize]]
    else []
  }

  function RefAnswers(f: Reference, fileSize: nat, pageSize: nat, ops: seq<Op>): seq<seq<Byte>>
    requires fileSize > 0
    decreases |ops|
  {
    if ops == [] then []
    else
      RefAnswer(f, fileSize, pageSize, ops[0])
      + RefAnswers(RefStep(f, fileSize, ops[0]), fileSize, pageSize, ops[1..])
  }

  function Zeros(n: nat): seq<Byte> { seq(n, _ => 0) }

  /** The reference for a store that has just been created. */
  function Blank(st: Store): Reference { Reference(Flat(Zeros(st.fileSize * st.numFiles), false), {}) }

  // ----- the object follows the reference -----

  /** A file is allocated in full or is empty or missing. */
  ghost predicate Files01(st: Store, full: set<nat>) {
    forall i: nat :: if i in full then |Content(st.files, i)| >= st.fileSize else Content(st.files, i) == []
  }

  ghost predicate Follows(st: Store, f: Reference) { Represents(st, f.flat) && Files01(st, f.full) }

  lemma StepFiles(st: Store, pageSize: nat, op: Op, f: Reference)
    requires Ready(st, pageSize) && InRange(st, pageSize, op) && f.flat.readOnly == st.readOnly && Files01(st, f.full)
    ensures Files01(Step(st, pageSize, op), RefStep(f, st.fileSize, op).full)
  {
    match op
    case ReadPage(off) => OpenedIsLegal(st, off / st.fileSize);
    case WritePage(off, data) => WriteFiles(st, pageSize, off, data, f.full);
    case Reopen(_) =>
  }

  lemma WriteFiles(st: Store, pageSize: nat, off: nat, data: seq<Byte>, full: set<nat>)
    requires Ready(st, pageSize) && InRange(st, pageSize, WritePage(off, data)) && Files01(st, full)
    ensures var i := off / st.fileSize;
            Files01(Step(st, pageSize, WritePage(off, data)), if st.readOnly then full else full + {i})
  {
    PageInOneFile(off, pageSize, st.fileSize);
    OpenedIsLegal(st, off / st.fileSize);
  }

  lemma FollowsStep(st: Store, pageSize: nat, op: Op, f: Reference)
    requires Ready(st, pageSize) && InRange(st, pageSize, op) && Follows(st, f)
    ensures Follows(Step(st, pageSize, op), RefStep(f, st.fileSize, op))
  {
    StepFiles(st, pageSize, op, f);
    StepRepresents(st, pageSize, op, f.flat);
  }

  lemma AnswerIsReference(st: Store, pageSize: nat, op: Op, f: Reference)
    requires Ready(st, pageSize) && InRange(st, pageSize, op) && Follows(st, f)
    ensures Answer(st, pageSize, op) == RefAnswer(f, st.fileSize, pageSize, op)
  {
    if op.ReadPage? {
      ReadAgreesWithFlat(st, pageSize, op.off, f.flat);
      PageInStore(st, op.off, pageSize);
      if st.readOnly && op.off / st.fileSize !in f.full {
        EmptyFile(st, op.off, pageSize);
      }
    }
  }

  lemma EmptyFile(st: Store, off: nat, pageSize: nat)
    requires st.fileSize > 0 && st.readOnly && Content(st.files, off / st.fileSize) == []
    ensures ReadResult(st, off, pageSize) == []
  {
  }

  lemma CreatedFollows(st: Store)
    requires st.files == map[] && st.fileSize > 0 && !st.readOnly
    ensures Follows(st, Blank(st))
  {
  }

  /** The object and the reference go together. */
  ghost predicate Beside(s: SparseStore, pageSize: nat, st: Store, f: Reference)
    reads s, s.dir
  {
    Tied(s, pageSize) && s.fileSize == st.fileSize && s.numFiles == st.numFiles && Follows(s.State(), f)
  }

  lemma SameRange(a: Store, b: Store, pageSize: nat, op: Op)
    requires pageSize > 0 && a.fileSize > 0 && a.fileSize == b.fileSize && a.numFiles == b.numFiles
    requires InRange(a, pageSize, op)
    ensures InRange(b, pageSize, op)
  {
  }

  /** One operation on the object and on the reference. */
  method ApplyBeside(s: SparseStore, pageSize: nat, op: Op, ghost st: Store, ghost f: Reference)
    returns (t: SparseStore, answer: seq<seq<Byte>>)
    requires Beside(s, pageSize, st, f) && InRange(s.State(), pageSize, op)
    modifies s, s.dir`files
    ensures t.dir == s.dir && (t == s || fresh(t)) && Beside(t, pageSize, st, RefStep(f, st.fileSize, op))
    ensures answer == RefAnswer(f, st.fileSize, pageSize, op)
  {
    ghost var before := s.State();
    StepKeeps(before, pageSize, op);
    AnswerIsReference(before, pageSize, op, f);
    FollowsStep(before, pageSize, op, f);
    t, answer := Apply(s, pageSize, op);
  }

  /** A history on the object and on the reference. */
  method Drive(s: SparseStore, pageSize: nat, ops: seq<Op>, ghost st: Store, ghost f: Reference)
    returns (answers: seq<seq<Byte>>)
    requires pageSize > 0 && st.fileSize > 0 && Beside(s, pageSize, st, f)
    requires forall k :: 0 <= k < |ops| ==> InRange(st, pageSize, ops[k])
    modifies s, s.dir`files
    ensures answers == RefAnswers(f, st.fileSize, pageSize, ops)
    decreases |ops|
  {
    if ops == [] {
      return [];
    }
    SameRange(st, s.State(), pageSize, ops[0]);
    var t, first := ApplyBeside(s, pageSize, ops[0], st, f);
    var rest := Drive(t, pageSize, ops[1..], st, RefStep(f, st.fileSize, ops[0]));
    answers := first + rest;
  }

  /** The store as its metadata describes it: a store of size zero is created with no file but
      reopened with one. */
  ghost function Described(size: nat, pageSize: nat, requested: nat): (st: Store)
    requires pageSize > 0 && requested > 0
    ensures st.fileSize > 0
  {
    var st := Created(size, pageSize, requested);
    if size == 0 then st.(numFiles := 1) else st
  }

  /** Create a store and apply a history to it: the answers are those of a zero-filled flat
      array, reopening from the metadata included.  A store of size zero has no page before it
      is reopened. */
  method Replay(dir: Directory, size: nat, pageSize: nat, requested: nat, ops: seq<Op>)
    returns (answers: seq<seq<Byte>>)
    requires pageSize > 0 && requested > 0 && dir.meta == None
    requires forall k :: 0 <= k < |ops| ==> InRange(Described(size, pageSize, requested), pageSize, ops[k])
    requires size == 0 && ops != [] ==> ops[0].Reopen?
    modifies dir
    ensures var st := Described(size, pageSize, requested);
            answers == RefAnswers(Blank(st), st.fileSize, pageSize, ops)
  {
    ghost var st := Described(size, pageSize, requested);
    var r := CreateStore(dir, size, pageSize, requested);
    CreatedFollows(st);
    if size > 0 {
      answers := Drive(r.value, pageSize, ops, st, Blank(st));
    } else if ops == [] {
      answers := [];
    } else {
      var t := OpenStore(dir, ops[0].readOnly);
      ReopenedFollows(st, ops[0].readOnly);
      answers := Drive(t.value, pageSize, ops[1..], st, RefStep(Blank(st), st.fileSize, ops[0]));
    }
  }

  lemma ReopenedFollows(st: Store, readOnly: bool)
    requires st.fileSize > 0 && Follows(st, Blank(st))
    ensures Follows(st.(readOnly := readOnly), RefStep(Blank(st), st.fileSize, Reopen(readOnly)))
  {
  }
}
