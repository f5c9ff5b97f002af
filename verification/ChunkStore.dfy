/**
 * The chunk cutter of the dataset creator: `scripts/dataset_creator/store.py`, for one model.
 *
 * A chunk is written to disk, taken off the pending file and recorded in the state table, in three durable steps.
 * The process may stop between any two of them, and is then run again.
 */
module ChunkStore {
  import opened Picks

  datatype Row = Row(sampleId: string, runId: string, body: string)

  type Files = map<nat, seq<Row>>

  function SampleIds(rows: seq<Row>): (ids: seq<string>)
    ensures |ids| == |rows| && forall i :: 0 <= i < |rows| ==> ids[i] == rows[i].sampleId
  {
    seq(|rows|, i requires 0 <= i < |rows| => rows[i].sampleId)
  }

  /** The rows of the chunk files numbered below `end`, in order of number. */
  function Chunked(files: Files, end: nat): seq<Row> {
    if end == 0 then []
    else Chunked(files, end - 1) + if end - 1 in files then files[end - 1] else []
  }

  predicate Below(files: Files, end: nat) {
    forall no :: no in files ==> 1 <= no < end
  }

  /** `rows[:n]`. */
  function Take(rows: seq<Row>, n: nat): seq<Row> {
    if n <= |rows| then rows[..n] else rows
  }

  function Others(rows: seq<Row>, runId: string): seq<Row> {
    if rows == [] then []
    else Others(rows[..|rows| - 1], runId) + if rows[|rows| - 1].runId != runId then [rows[|rows| - 1]] else []
  }

  // ---------------------------------------------------------------- the invariant

  /** The `k`-th chunk-sized window of the rows. */
  function Window(rows: seq<Row>, k: nat, size: nat): seq<Row>
    requires (k + 1) * size <= |rows|
  {
    assert (k + 1) * size == k * size + size;
    rows[k * size..k * size + size]
  }

  predicate DiffersAt(rows: seq<Row>, k: nat, size: nat) {
    (k + 2) * size <= |rows| ==>
      (k + 1) * size <= |rows| && SampleIds(Window(rows, k, size)) != SampleIds(Window(rows, k + 1, size))
  }

  /** Adjacent windows have different lists of sample ids. */
  ghost predicate WindowsDiffer(rows: seq<Row>, size: nat) {
    forall k: nat :: DiffersAt(rows, k, size)
  }

  /** Every file is recorded, and the files followed by the pending rows are the original rows. */
  predicate IsClean(files: Files, recorded: set<nat>, pending: seq<Row>, all: seq<Row>, end: nat) {
    Below(files, end) && recorded == files.Keys && Chunked(files, end) + pending == all
  }

  /** Stopped after writing file `no`: its rows still head the pending rows. */
  predicate IsWritten(files: Files, recorded: set<nat>, pending: seq<Row>, all: seq<Row>, no: nat, size: nat) {
    && no >= 1 && no in files && |files[no]| == size && size <= |pending| && pending[..size] == files[no]
    && IsClean(files - {no}, recorded, pending, all, no)
  }

  /** Stopped after saving the pending rows: only the record of file `no` is missing. */
  predicate IsSaved(files: Files, recorded: set<nat>, pending: seq<Row>, all: seq<Row>, no: nat, size: nat) {
    && no >= 1 && no in files && |files[no]| == size
    && IsClean(files - {no}, recorded, files[no] + pending, all, no)
  }

  /** Nothing is lost or doubled: any of the three kinds of state the cutter can stop in. */
  ghost predicate Conserves(files: Files, recorded: set<nat>, pending: seq<Row>, all: seq<Row>, size: nat) {
    || (exists end :: IsClean(files, recorded, pending, all, end))
    || (exists no :: IsWritten(files, recorded, pending, all, no, size))
    || (exists no :: IsSaved(files, recorded, pending, all, no, size))
  }

  predicate AllSized(files: Files, size: nat) {
    forall no :: no in files ==> |files[no]| == size
  }

  // ---------------------------------------------------------------- lemmas about the files

  lemma {:induction false} ChunkedIgnoresLater(files: Files, no: nat, rows: seq<Row>, end: nat)
    requires end <= no
    ensures Chunked(files[no := rows], end) == Chunked(files, end)
  {
    if end > 0 { ChunkedIgnoresLater(files, no, rows, end - 1); }
  }

  lemma {:induction false} ChunkedBeyond(files: Files, end: nat, more: nat)
    requires Below(files, end) && end <= more
    ensures Chunked(files, more) == Chunked(files, end)
  {
    if end < more { ChunkedBeyond(files, end, more - 1); }
  }

  lemma ChunkedWithLast(files: Files, no: nat)
    requires no in files && Below(files - {no}, no)
    ensures Chunked(files, no + 1) == Chunked(files - {no}, no) + files[no]
  {
    ChunkedIgnoresLater(files - {no}, no, files[no], no);
    assert (files - {no})[no := files[no]] == files;
  }

  /** Writing the next chunk, saving the rest and recording it lead from one kind of state to the next. */
  lemma CutSteps(files: Files, recorded: set<nat>, pending: seq<Row>, all: seq<Row>, no: nat, size: nat)
    requires size >= 1 && no >= 1 && IsClean(files, recorded, pending, all, no) && size <= |pending|
    ensures var written := files[no := pending[..size]];
            && IsWritten(written, recorded, pending, all, no, size)
            && IsSaved(written, recorded, pending[size..], all, no, size)
            && IsClean(written, recorded + {no}, pending[size..], all, no + 1)
  {
    var written := files[no := pending[..size]];
    assert written - {no} == files;
    assert pending == pending[..size] + pending[size..];
    RecordSaved(written, recorded, pending[size..], all, no, size);
  }

  lemma SaveWritten(files: Files, recorded: set<nat>, pending: seq<Row>, all: seq<Row>, no: nat, size: nat)
    requires IsWritten(files, recorded, pending, all, no, size)
    ensures IsSaved(files, recorded, pending[size..], all, no, size)
  {
    assert pending == files[no] + pending[size..];
  }

  lemma RecordSaved(files: Files, recorded: set<nat>, pending: seq<Row>, all: seq<Row>, no: nat, size: nat)
    requires IsSaved(files, recorded, pending, all, no, size)
    ensures IsClean(files, recorded + {no}, pending, all, no + 1)
  {
    ChunkedWithLast(files, no);
    assert Chunked(files, no + 1) + pending == Chunked(files - {no}, no) + (files[no] + pending);
    assert forall k :: k in files ==> k == no || k in files - {no};
  }

  /** How many files are numbered below `end`. */
  function Count(files: Files, end: nat): nat {
    if end == 0 then 0 else Count(files, end - 1) + if end - 1 in files then 1 else 0
  }

  lemma {:induction false} ChunkedLength(files: Files, end: nat, size: nat)
    requires AllSized(files, size)
    ensures |Chunked(files, end)| == Count(files, end) * size
  {
    if end > 0 {
      ChunkedLength(files, end - 1, size);
      assert (Count(files, end - 1) + 1) * size == Count(files, end - 1) * size + size;
    }
  }

  lemma TwoMore(k: nat, size: nat)
    ensures (k + 1) * size == k * size + size && (k + 2) * size == k * size + size + size
  {
  }

  /** A saved chunk is not mistaken for a written one: the pending rows now start with the next window. */
  lemma SavedHeadDiffers(files: Files, recorded: set<nat>, pending: seq<Row>, all: seq<Row>, no: nat, size: nat)
    requires size >= 1 && IsSaved(files, recorded, pending, all, no, size) && AllSized(files, size)
             && WindowsDiffer(all, size)
    ensures SampleIds(Take(pending, size)) != SampleIds(files[no])
  {
    if size <= |pending| {
      var before := Chunked(files - {no}, no);
      var k := Count(files - {no}, no);
      ChunkedLength(files - {no}, no, size);
      TwoMore(k, size);
      assert all == before + (files[no] + pending);
      assert DiffersAt(all, k, size);
      assert Window(all, k, size) == files[no];
      assert Window(all, k + 1, size) == pending[..size];
    }
  }

  /** A saved chunk that the re-run takes for a written one: the next window carries the same sample ids. */
  predicate IsMistaken(files: Files, recorded: set<nat>, pending: seq<Row>, all: seq<Row>, no: nat, size: nat) {
    IsSaved(files, recorded, pending, all, no, size) && SampleIds(Take(pending, size)) == SampleIds(files[no])
  }

  ghost predicate Mistakes(files: Files, recorded: set<nat>, pending: seq<Row>, all: seq<Row>, size: nat) {
    exists no :: IsMistaken(files, recorded, pending, all, no, size)
  }

  /** The rows without the window that heads the pending ones, which are the end of them. */
  function WithoutHead(all: seq<Row>, pending: seq<Row>, size: nat): seq<Row>
    requires size <= |pending| <= |all|
  {
    all[..|all| - |pending|] + pending[size..]
  }

  /** With differing windows nothing is mistaken. */
  lemma NothingMistaken(files: Files, recorded: set<nat>, pending: seq<Row>, all: seq<Row>, size: nat)
    requires size >= 1 && AllSized(files, size) && WindowsDiffer(all, size)
    ensures !Mistakes(files, recorded, pending, all, size)
  {
    if no :| IsMistaken(files, recorded, pending, all, no, size) {
      SavedHeadDiffers(files, recorded, pending, all, no, size);
    }
  }

  /** A mistaken chunk's next window is dropped; the other rows are conserved. */
  lemma DropMistaken(files: Files, recorded: set<nat>, pending: seq<Row>, all: seq<Row>, no: nat, size: nat)
    requires size >= 1 && IsMistaken(files, recorded, pending, all, no, size)
    ensures size <= |pending| <= |all| && |WithoutHead(all, pending, size)| == |all| - size
    ensures IsSaved(files, recorded, pending[size..], WithoutHead(all, pending, size), no, size)
  {
    assert |SampleIds(Take(pending, size))| == size;
    var before := Chunked(files - {no}, no);
    assert all == (before + files[no]) + pending;
    assert all[..|all| - |pending|] == before + files[no];
    assert before + (files[no] + pending[size..]) == (before + files[no]) + pending[size..];
  }

  /** Stopped after saving the rest of chunk `k`, that chunk is its window and the rest follows it. */
  lemma SavedWindow(files: Files, recorded: set<nat>, pending: seq<Row>, all: seq<Row>, no: nat, k: nat, size: nat)
    requires IsSaved(files, recorded, pending, all, no, size) && |pending| + (k + 1) * size == |all| && size >= 1
    requires !DiffersAt(all, k, size)
    ensures IsMistaken(files, recorded, pending, all, no, size)
  {
    var before := Chunked(files - {no}, no);
    assert all == before + (files[no] + pending);
    TwoMore(k, size);
    assert |before| == k * size;
    assert Window(all, k, size) == files[no];
    assert Window(all, k + 1, size) == pending[..size];
  }

  // ---------------------------------------------------------------- rows arriving

  lemma {:induction false} OthersOfFreshRun(rows: seq<Row>, runId: string)
    requires forall i :: 0 <= i < |rows| ==> rows[i].runId != runId
    ensures Others(rows, runId) == rows
  {
    if rows != [] {
      OthersOfFreshRun(rows[..|rows| - 1], runId);
      assert rows == rows[..|rows| - 1] + [rows[|rows| - 1]];
    }
  }

  lemma {:induction false} OthersOfOneRun(before: seq<Row>, rows: seq<Row>, runId: string)
    requires forall i :: 0 <= i < |rows| ==> rows[i].runId == runId
    ensures Others(before + rows, runId) == Others(before, runId)
  {
    if rows == [] {
      assert before + rows == before;
    } else {
      assert (before + rows)[..|before + rows| - 1] == before + rows[..|rows| - 1];
      OthersOfOneRun(before, rows[..|rows| - 1], runId);
    }
  }

  /** Of the pending rows exactly those of other runs are kept, in their order. */
  lemma {:induction false} OthersAre(rows: seq<Row>, runId: string) returns (at: seq<nat>)
    ensures ArePicked(rows, (row: Row) => row.runId != runId, (row: Row) => row, Others(rows, runId), at)
  {
    at := [];
    if rows != [] {
      var n := |rows| - 1;
      at := OthersAre(rows[..n], runId);
      OneMorePicked(rows[..n], (row: Row) => row.runId != runId, (row: Row) => row, Others(rows[..n], runId), at,
                    rows[n]);
      assert rows[..n] + [rows[n]] == rows;
      if rows[n].runId != runId { at := at + [n]; }
    }
  }

  lemma {:induction false} OthersTwice(rows: seq<Row>, runId: string)
    ensures Others(Others(rows, runId), runId) == Others(rows, runId)
  {
    if rows != [] {
      var init, last := rows[..|rows| - 1], rows[|rows| - 1];
      OthersTwice(init, runId);
      if last.runId != runId {
        assert Others(rows, runId)[..|Others(rows, runId)| - 1] == Others(init, runId);
      } else {
        assert Others(rows, runId) == Others(init, runId);
      }
    }
  }

  /** Extracting a run twice leaves the pending rows as extracting it once does. */
  lemma AppendIsIdempotent(pending: seq<Row>, rows: seq<Row>, runId: string)
    requires forall i :: 0 <= i < |rows| ==> rows[i].runId == runId
    ensures var once := Others(pending, runId) + rows; Others(once, runId) + rows == once
  {
    OthersOfOneRun(Others(pending, runId), rows, runId);
    OthersTwice(pending, runId);
  }

  /** New rows may arrive wherever the cutter stopped. */
  lemma AppendConserves(files: Files, recorded: set<nat>, pending: seq<Row>, all: seq<Row>, rows: seq<Row>, size: nat)
    requires Conserves(files, recorded, pending, all, size)
    ensures Conserves(files, recorded, pending + rows, all + rows, size)
  {
    if end :| IsClean(files, recorded, pending, all, end) {
      assert Chunked(files, end) + (pending + rows) == all + rows;
      assert IsClean(files, recorded, pending + rows, all + rows, end);
    } else if no :| IsWritten(files, recorded, pending, all, no, size) {
      assert Chunked(files - {no}, no) + (pending + rows) == all + rows;
      assert IsWritten(files, recorded, pending + rows, all + rows, no, size);
    } else {
      var no :| IsSaved(files, recorded, pending, all, no, size);
      assert Chunked(files - {no}, no) + (files[no] + (pending + rows)) == all + rows;
      assert IsSaved(files, recorded, pending + rows, all + rows, no, size);
    }
  }

  // ---------------------------------------------------------------- the store

  class Store {
    var files: Files
    var recorded: set<nat>
    var pending: seq<Row>

    constructor ()
      ensures files == map[] && recorded == {} && pending == []
    {
      files, recorded, pending := map[], {}, [];
    }

    ghost predicate Valid(all: seq<Row>, size: nat)
      reads this
    {
      size >= 1 && AllSized(files, size) && Conserves(files, recorded, pending, all, size)
    }

    /** Rows of a run replace the rows of an earlier extraction of the same run; a new run's are added. */
    method AppendRows(rows: seq<Row>, ghost all: seq<Row>, size: nat)
      requires rows != []
      modifies this`pending
      ensures pending == Others(old(pending), rows[0].runId) + rows
      ensures old(Valid(all, size)) && (forall i :: 0 <= i < |old(pending)| ==> old(pending)[i].runId != rows[0].runId)
              ==> Valid(all + rows, size)
    {
      var runId := rows[0].runId;
      var kept: seq<Row> := [];
      for i := 0 to |pending|
        invariant kept == Others(pending[..i], runId)
      {
        assert pending[..i + 1][..i] == pending[..i];
        if pending[i].runId != runId {
          kept := kept + [pending[i]];
        }
      }
      assert pending[..|pending|] == pending;
      if Valid(all, size) && forall i :: 0 <= i < |pending| ==> pending[i].runId != runId {
        OthersOfFreshRun(pending, runId);
        AppendConserves(files, recorded, pending, all, rows, size);
      }
      pending := kept + rows;
    }

    /** The chunk files, in whatever order the directory yields them. */
    method Listing() returns (order: seq<nat>)
      ensures forall k :: k in order <==> k in files
    {
      order := [];
      var todo := files.Keys;
      while todo != {}
        invariant forall k :: k in files <==> k in todo || k in order
      {
        var k :| k in todo;
        order, todo := order + [k], todo - {k};
      }
    }

    method NextChunkNo() returns (no: nat)
      requires forall k :: k in files ==> k >= 1
      ensures no >= 1 && Below(files, no) && (no == 1 || no - 1 in files)
    {
      var most := 0;
      var todo := files.Keys;
      while todo != {}
        invariant todo <= files.Keys
        invariant forall k :: k in files && k !in todo ==> k <= most
        invariant most == 0 || most in files
      {
        var k :| k in todo;
        if k > most { most := k; }
        todo := todo - {k};
      }
      no := most + 1;
    }

    /**
     * `order` is the directory listing; `effects` durable steps are left before the process stops. An unrecorded
     * file whose ids head the pending rows is taken for one that was written but not taken off them. That is right
     * unless it was taken off already and the next window has the same ids: then this window is lost.
     */
    method ReconcileOrphans(order: seq<nat>, effects: nat, ghost all: seq<Row>, size: nat)
      returns (left: nat, done: bool, ghost kept: seq<Row>)
      requires Valid(all, size) && (forall k :: k in order <==> k in files)
      modifies this`pending, this`recorded
      ensures Valid(kept, size)
      ensures kept == all || IsReconciled(files, old(recorded), old(pending), all, size, kept)
      ensures done ==> IsReconciled(files, old(recorded), old(pending), all, size, kept)
      ensures done ==> exists end :: IsClean(files, recorded, pending, kept, end)
      ensures left <= effects && |pending| <= |old(pending)|
      ensures (effects >= 2 ==> done) && (done ==> left + 2 >= effects)
      ensures old(recorded == files.Keys) ==>
                done && left == effects && pending == old(pending) && recorded == old(recorded)
    {
      left, kept := effects, all;
      for i := 0 to |order|
        invariant Valid(kept, size) && |pending| <= |old(pending)|
        invariant recorded != files.Keys ==>
                    left == effects && pending == old(pending) && recorded == old(recorded) && kept == all
        invariant left <= effects <= left + 2
        invariant forall k :: 0 <= k < i ==> order[k] in recorded
        invariant old(recorded == files.Keys) ==>
                    left == effects && pending == old(pending) && recorded == old(recorded)
        invariant recorded == files.Keys ==> IsReconciled(files, old(recorded), old(pending), all, size, kept)
      {
        var no := order[i];
        if no !in recorded {
          var chunk := files[no];
          var headed := SampleIds(Take(pending, |chunk|)) == SampleIds(chunk);
          kept := Reconciled(files, recorded, pending, all, no, size);
          if headed {
            if left == 0 {
              kept := all;
              return left, false, kept;
            }
            left := left - 1;
            pending := pending[|chunk|..];
          }
          RecordSaved(files, recorded, pending, kept, no, size);
          if left == 0 { return left, false, kept; }
          left := left - 1;
          recorded := recorded + {no};
        }
      }
      assert forall k :: k in files ==> k in recorded;
      AllRecordedIsClean(files, recorded, pending, kept, size);
      done := true;
    }

    /**
     * Cut what is full, stopping after `effects` durable steps if that is too few. The model is visited only when
     * something is pending or recorded for it, so a first chunk that was the whole of the pending rows and lost its
     * record stays unrecorded until new rows arrive.
     */
    method CutChunks(effects: nat, ghost all: seq<Row>, size: nat) returns (done: bool, ghost kept: seq<Row>)
      requires Valid(all, size)
      modifies this
      ensures Valid(kept, size)
      ensures WindowsDiffer(all, size) ==> kept == all
      ensures |kept| <= |all|
      ensures done && old(Mistakes(files, recorded, pending, all, size)) ==> |kept| + size == |all|
      ensures effects >= 2 + 3 * |old(pending)| ==> done
      ensures done ==> |pending| < size && exists end :: Below(files, end) && Chunked(files, end) + pending == kept
      ensures done ==> (recorded == files.Keys <==> old(recorded != {} || pending != [] || files == map[]))
      ensures old(files == map[] && recorded == {}) && effects % 3 == 2
              && effects < 3 * Chunks(|old(pending)|, size) ==>
                kept == all && StoppedSaved(files, recorded, pending, all, |old(pending)|, effects, size)
    {
      if pending == [] && recorded == {} {
        IdleConserves(files, all, size);
        kept := all;
        return true, kept;
      }
      done, kept := CutModel(effects, all, size);
    }

    /** One turn of `cut_chunks` for a model it visits. */
    method CutModel(effects: nat, ghost all: seq<Row>, size: nat) returns (done: bool, ghost kept: seq<Row>)
      requires Valid(all, size)
      modifies this
      ensures Valid(kept, size)
      ensures |kept| <= |all| && (WindowsDiffer(all, size) ==> kept == all)
      ensures done && old(Mistakes(files, recorded, pending, all, size)) ==> |kept| + size == |all|
      ensures effects >= 2 + 3 * |old(pending)| ==> done
      ensures done ==> |pending| < size && exists end :: IsClean(files, recorded, pending, kept, end)
      ensures old(files == map[] && recorded == {}) && effects % 3 == 2
              && effects < 3 * Chunks(|old(pending)|, size) ==>
                kept == all && StoppedSaved(files, recorded, pending, all, |old(pending)|, effects, size)
    {
      var order := Listing();
      var left;
      ghost var before := files;
      left, done, kept := ReconcileOrphans(order, effects, all, size);
      KeptRows(before, old(recorded), old(pending), all, size, kept);
      if done {
        CleanIsNotMistaken(before, old(recorded), old(pending), all, size);
        NoMoreChunks(|pending|, size);
        done := CutFull(left, kept, size);
      }
    }

    /**
     * The loop of `cut_chunks`: write a full chunk, take its rows off, record it. Exactly how far it gets in `effects`
     * durable steps, and in which of the three kinds of state it stops.
     */
    method CutFull(effects: nat, ghost all: seq<Row>, size: nat) returns (done: bool)
      requires Valid(all, size) && exists end :: IsClean(files, recorded, pending, all, end)
      modifies this
      ensures Valid(all, size)
      ensures done <==> effects >= 3 * Chunks(|old(pending)|, size)
      ensures done ==> |pending| < size && exists end :: IsClean(files, recorded, pending, all, end)
      ensures !done && effects % 3 == 2 ==> StoppedSaved(files, recorded, pending, all, |old(pending)|, effects, size)
    {
      var left: nat := effects;
      ghost var end :| IsClean(files, recorded, pending, all, end);
      ghost var was, cut := |pending|, 0;
      while |pending| >= size
        invariant Valid(all, size) && IsClean(files, recorded, pending, all, end)
        invariant left + 3 * cut == effects && |pending| + cut * size == was
        decreases |pending|
      {
        assert (cut + 1) * size == cut * size + size;
        AtLeast(was, cut + 1, size);
        var rows, rest := pending[..size], pending[size..];
        var no := NextChunkNo();
        SameCleanAt(files, recorded, pending, all, end, no);
        CutSteps(files, recorded, pending, all, no, size);
        if left == 0 { return false; }
        left := left - 1;
        files := files[no := rows];
        if left == 0 { return false; }
        left := left - 1;
        pending := rest;
        if left == 0 {
          StoppedAt(files, recorded, pending, all, was, cut, no, effects, size);
          return false;
        }
        left := left - 1;
        recorded := recorded + {no};
        end, cut := no + 1, cut + 1;
        assert cut * size == (cut - 1) * size + size;
      }
      Exactly(was, cut, |pending|, size);
      done := true;
    }

    /**
     * Stopped any number of times, anywhere, then left to finish: the files and the pending rows are rows that were
     * there, and with differing windows they are all of them in order.
     */
    method RunDespiteCrashes(stops: seq<nat>, ghost all: seq<Row>, size: nat) returns (ghost kept: seq<Row>)
      requires Valid(all, size)
      modifies this
      ensures |pending| < size && AllSized(files, size)
      ensures exists end :: Below(files, end) && Chunked(files, end) + pending == kept
      ensures |kept| <= |all| && (WindowsDiffer(all, size) ==> kept == all)
    {
      var done;
      kept := all;
      for i := 0 to |stops|
        invariant Valid(kept, size) && |kept| <= |all| && (WindowsDiffer(all, size) ==> kept == all)
      {
        done, kept := CutChunks(stops[i], kept, size);
      }
      done, kept := CutChunks(2 + 3 * |pending|, kept, size);
    }
  }

  /**
   * The other half: whenever two adjacent windows have the same ids, new rows in an empty store lose the second of
   * them if the process stops after taking the first off the pending rows, and is then left to finish.
   */
  method EqualWindowsLoseRows(all: seq<Row>, k: nat, size: nat) returns (store: Store, ghost kept: seq<Row>)
    requires size >= 1 && !DiffersAt(all, k, size)
    ensures fresh(store) && AllSized(store.files, size) && |store.pending| < size
    ensures exists end :: Below(store.files, end) && Chunked(store.files, end) + store.pending == kept
    ensures |kept| == |all| - size
  {
    store := StopAfterSaving(all, k, size);
    var done;
    done, kept := store.CutChunks(2 + 3 * |store.pending|, all, size);
  }

  lemma AtLeastOne(all: seq<Row>, k: nat, size: nat)
    requires size >= 1 && !DiffersAt(all, k, size)
    ensures all != []
  {
    assert (k + 2) * size >= size;
  }

  method Arrived(all: seq<Row>, size: nat) returns (store: Store)
    requires size >= 1 && all != []
    ensures fresh(store) && store.Valid(all, size) && store.pending == all
    ensures store.files == map[] && store.recorded == {}
  {
    store := new Store();
    assert IsClean(map[], {}, [], [], 1);
    store.AppendRows(all, [], size);
    assert [] + all == all;
  }

  /** New rows in an empty store, and a process that stops before it records chunk `k`. */
  method StopAfterSaving(all: seq<Row>, k: nat, size: nat) returns (store: Store)
    requires size >= 1 && !DiffersAt(all, k, size)
    ensures fresh(store) && store.Valid(all, size)
    ensures Mistakes(store.files, store.recorded, store.pending, all, size)
  {
    AtLeastOne(all, k, size);
    store := Arrived(all, size);
    var effects := 3 * k + 2;
    SecondWindow(all, k, effects, size);
    var done;
    ghost var kept;
    done, kept := store.CutChunks(effects, all, size);
    StoppedIsMistaken(store.files, store.recorded, store.pending, all, k, effects, size);
  }

  lemma SecondWindow(all: seq<Row>, k: nat, effects: nat, size: nat)
    requires size >= 1 && !DiffersAt(all, k, size) && effects == 3 * k + 2
    ensures effects % 3 == 2 && effects < 3 * Chunks(|all|, size) && all != []
  {
    TwoMore(k, size);
    AtLeast(|all|, k + 2, size);
  }

  lemma StoppedIsMistaken(
    files: Files, recorded: set<nat>, pending: seq<Row>, all: seq<Row>, k: nat, effects: nat, size: nat)
    requires StoppedSaved(files, recorded, pending, all, |all|, effects, size) && effects == 3 * k + 2
    requires size >= 1 && !DiffersAt(all, k, size)
    ensures Mistakes(files, recorded, pending, all, size)
  {
    var no :| IsSaved(files, recorded, pending, all, no, size) && |pending| + (effects / 3 + 1) * size == |all|;
    assert effects / 3 == k;
    SavedWindow(files, recorded, pending, all, no, k, size);
  }

  /** How many full chunks so many rows make. */
  function Chunks(rows: nat, size: nat): nat
    requires size >= 1
  {
    rows / size
  }

  lemma AtLeast(rows: nat, q: nat, size: nat)
    requires size >= 1 && q * size <= rows
    ensures q <= Chunks(rows, size)
  {
    var d := rows / size;
    assert rows < d * size + size == (d + 1) * size;
    assert d + 1 <= q ==> (d + 1) * size <= q * size;
  }

  lemma NoMoreChunks(rows: nat, size: nat)
    requires size >= 1
    ensures Chunks(rows, size) <= rows
  {
    var d := rows / size;
    assert d <= d * size <= rows;
  }

  lemma Exactly(rows: nat, q: nat, rest: nat, size: nat)
    requires rest < size && rest + q * size == rows
    ensures q == Chunks(rows, size)
  {
    AtLeast(rows, q, size);
    var d := rows / size;
    assert d * size <= rows < q * size + size == (q + 1) * size;
    assert q + 1 <= d ==> (q + 1) * size <= d * size;
  }

  /** Stopped in the third of the three steps for chunk `effects / 3`, of `was` pending rows. */
  ghost predicate StoppedSaved(
    files: Files, recorded: set<nat>, pending: seq<Row>, all: seq<Row>, was: nat, effects: nat, size: nat)
  {
    exists no :: IsSaved(files, recorded, pending, all, no, size) && |pending| + (effects / 3 + 1) * size == was
  }

  lemma StoppedAt(
    files: Files, recorded: set<nat>, pending: seq<Row>, all: seq<Row>, was: nat, cut: nat, no: nat, effects: nat,
    size: nat)
    requires IsSaved(files, recorded, pending, all, no, size) && effects == 3 * cut + 2
    requires |pending| + size + cut * size == was
    ensures StoppedSaved(files, recorded, pending, all, was, effects, size)
  {
    assert (cut + 1) * size == cut * size + size;
    assert effects / 3 == cut;
  }

  /** What reconciling the unrecorded file makes of the rows: all of them, or all but the next window. */
  ghost predicate IsReconciled(
    files: Files, recorded: set<nat>, pending: seq<Row>, all: seq<Row>, size: nat, kept: seq<Row>) {
    if Mistakes(files, recorded, pending, all, size)
    then size <= |pending| <= |all| && kept == WithoutHead(all, pending, size)
    else kept == all
  }

  lemma KeptRows(files: Files, recorded: set<nat>, pending: seq<Row>, all: seq<Row>, size: nat, kept: seq<Row>)
    requires size >= 1 && AllSized(files, size)
             && (kept == all || IsReconciled(files, recorded, pending, all, size, kept))
    ensures |kept| <= |all| && (WindowsDiffer(all, size) ==> kept == all)
    ensures IsReconciled(files, recorded, pending, all, size, kept) && Mistakes(files, recorded, pending, all, size) ==>
              |kept| + size == |all|
  {
    if WindowsDiffer(all, size) { NothingMistaken(files, recorded, pending, all, size); }
  }

  lemma CleanIsNotMistaken(files: Files, recorded: set<nat>, pending: seq<Row>, all: seq<Row>, size: nat)
    ensures files == map[] ==> !Mistakes(files, recorded, pending, all, size)
  {
  }

  lemma Reconciled(files: Files, recorded: set<nat>, pending: seq<Row>, all: seq<Row>, no: nat, size: nat)
    returns (kept: seq<Row>)
    requires size >= 1 && AllSized(files, size) && Conserves(files, recorded, pending, all, size) && no in files
             && no !in recorded
    ensures IsReconciled(files, recorded, pending, all, size, kept) && files.Keys == recorded + {no}
    ensures var headed := SampleIds(Take(pending, size)) == SampleIds(files[no]);
            && (headed ==> size <= |pending|)
            && IsSaved(files, recorded, if headed then pending[size..] else pending, kept, no, size)
  {
    OrphanCases(files, recorded, pending, all, no, size);
    var headed := SampleIds(Take(pending, size)) == SampleIds(files[no]);
    kept := all;
    if IsSaved(files, recorded, pending, all, no, size) {
      if headed {
        assert IsMistaken(files, recorded, pending, all, no, size);
        DropMistaken(files, recorded, pending, all, no, size);
        kept := WithoutHead(all, pending, size);
      } else {
        OnlyOrphan(files, recorded, pending, all, no, size);
      }
    } else {
      SaveWritten(files, recorded, pending, all, no, size);
      OnlyOrphan(files, recorded, pending, all, no, size);
    }
  }

  /** No other file can be the mistaken one. */
  lemma OnlyOrphan(files: Files, recorded: set<nat>, pending: seq<Row>, all: seq<Row>, no: nat, size: nat)
    requires files.Keys == recorded + {no} && no !in recorded && !IsMistaken(files, recorded, pending, all, no, size)
    ensures !Mistakes(files, recorded, pending, all, size)
  {
    forall other ensures !IsMistaken(files, recorded, pending, all, other, size) {
      if other != no { assert other in files ==> other in recorded; }
    }
  }

  /** Nothing pending and nothing recorded: at most the first file is there, and it is the original rows. */
  lemma IdleConserves(files: Files, all: seq<Row>, size: nat)
    requires size >= 1 && Conserves(files, {}, [], all, size)
    ensures exists end :: Below(files, end) && Chunked(files, end) + [] == all
  {
    if no :| IsSaved(files, {}, [], all, no, size) {
      RecordSaved(files, {}, [], all, no, size);
    }
  }

  lemma SameCleanAt(files: Files, recorded: set<nat>, pending: seq<Row>, all: seq<Row>, end: nat, no: nat)
    requires IsClean(files, recorded, pending, all, end) && Below(files, no)
    ensures IsClean(files, recorded, pending, all, no)
  {
    var most := if end <= no then no else end;
    ChunkedBeyond(files, end, most);
    ChunkedBeyond(files, no, most);
  }

  /** An unrecorded file means the cutter stopped in the middle of cutting that very file. */
  lemma OrphanCases(files: Files, recorded: set<nat>, pending: seq<Row>, all: seq<Row>, no: nat, size: nat)
    requires Conserves(files, recorded, pending, all, size) && no in files && no !in recorded
    ensures IsWritten(files, recorded, pending, all, no, size) || IsSaved(files, recorded, pending, all, no, size)
    ensures files.Keys == recorded + {no}
  {
    forall k | k in files && k != no ensures k in files - {no} {}
  }

  lemma AllRecordedIsClean(files: Files, recorded: set<nat>, pending: seq<Row>, all: seq<Row>, size: nat)
    requires Conserves(files, recorded, pending, all, size) && forall k :: k in files ==> k in recorded
    ensures exists end :: IsClean(files, recorded, pending, all, end)
  {
  }
}
