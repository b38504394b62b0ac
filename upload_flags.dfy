/**
 * The per-task upload flag list held in the component's `isUploading` state:
 * a list of `{status, taskId}` entries replaced wholesale by `prev => ...`
 * updaters, and the "is uploading" query the editor panels read.
 */
module UploadFlags {
  import opened Wrappers

  datatype UploadFlag = UploadFlag(status: bool, taskId: string)

  /** The entries of `flags` for task `id`, in list order. */
  function Entries(flags: seq<UploadFlag>, id: string): (e: seq<UploadFlag>)
    ensures |e| <= |flags|
  {
    if flags == [] then []
    else (if flags[0].taskId == id then [flags[0]] else []) + Entries(flags[1..], id)
  }

  /** How many entries `flags` holds for task `id`. */
  function Count(flags: seq<UploadFlag>, id: string): nat
  {
    |Entries(flags, id)|
  }

  /**
   * Some entry for `id` has its status set: the spinner is shown for the
   * selected task.
   */
  predicate IsUploading(flags: seq<UploadFlag>, id: string)
  {
    exists j :: 0 <= j < |flags| && flags[j].taskId == id && flags[j].status
  }

  /** `findIndex` of the first entry for `id`, with its "not found" `-1` as `None`. */
  function FindIndex(flags: seq<UploadFlag>, id: string): (k: Option<nat>)
    ensures k.None? <==> forall j :: 0 <= j < |flags| ==> flags[j].taskId != id
    ensures k.Some? ==> k.value < |flags| && flags[k.value].taskId == id
    ensures k.Some? ==> forall j :: 0 <= j < k.value ==> flags[j].taskId != id
  {
    if flags == [] then None
    else if flags[0].taskId == id then Some(0)
    else
      match FindIndex(flags[1..], id)
      case None => None
      case Some(k) => Some(k + 1)
  }

  /**
   * The file-upload updater: set `status` on the first entry for `id`, or
   * append a fresh `status: true` entry when there is none.
   */
  function MarkUploading(flags: seq<UploadFlag>, id: string): seq<UploadFlag>
  {
    match FindIndex(flags, id)
    case Some(k) => flags[k := flags[k].(status := true)]
    case None => flags + [UploadFlag(true, id)]
  }

  /** The recording updater: always append, so an entry for `id` may repeat. */
  function AppendUploading(flags: seq<UploadFlag>, id: string): seq<UploadFlag>
  {
    flags + [UploadFlag(true, id)]
  }

  /** The cleanup updater: keep exactly the entries of other tasks, in order. */
  function ClearUploading(flags: seq<UploadFlag>, id: string): seq<UploadFlag>
  {
    if flags == [] then []
    else (if flags[0].taskId == id then [] else [flags[0]]) + ClearUploading(flags[1..], id)
  }

  // ---------------------------------------------------------------------------
  // What each updater does
  // ---------------------------------------------------------------------------

  /**
   * After the find-or-append the spinner shows for `id`; the list grows only
   * when `id` had no entry, every position keeps its task, other tasks'
   * entries are untouched, and a task with at most one entry has exactly the
   * raised one.
   */
  lemma MarkUploadingSpec(flags: seq<UploadFlag>, id: string)
    ensures var r := MarkUploading(flags, id);
      && IsUploading(r, id)
      && |r| == (if Count(flags, id) == 0 then |flags| + 1 else |flags|)
      && (forall j :: 0 <= j < |flags| ==> r[j].taskId == flags[j].taskId)
      && (forall j :: 0 <= j < |flags| && flags[j].taskId != id ==> r[j] == flags[j])
      && (Count(flags, id) <= 1 ==> Entries(r, id) == [UploadFlag(true, id)])
  {
    var r := MarkUploading(flags, id);
    match FindIndex(flags, id)
    case Some(k) =>
      EntriesUpdateFirst(flags, k, r[k], id);
    case None =>
      assert r[|flags|].taskId == id && r[|flags|].status;
      NoEntries(flags, id);
      EntriesAppend(flags, [UploadFlag(true, id)], id);
  }

  /**
   * The append raises the spinner for `id`, keeps the old list as a prefix,
   * adds one entry for `id` and none for any other task.
   */
  lemma AppendUploadingSpec(flags: seq<UploadFlag>, id: string)
    ensures var r := AppendUploading(flags, id);
      && IsUploading(r, id)
      && |r| == |flags| + 1 && r[..|flags|] == flags
      && Count(r, id) == Count(flags, id) + 1
      && (forall other :: other != id ==> Count(r, other) == Count(flags, other))
  {
    var r := AppendUploading(flags, id);
    assert r[|flags|].taskId == id && r[|flags|].status;
    assert r[..|flags|] == flags;
    forall other {
      EntriesAppend(flags, [UploadFlag(true, id)], other);
    }
  }

  /** No entry for `id` survives the cleanup filter, so its spinner is off. */
  lemma {:induction false} ClearUploadingSpec(flags: seq<UploadFlag>, id: string)
    ensures forall j :: 0 <= j < |ClearUploading(flags, id)| ==> ClearUploading(flags, id)[j].taskId != id
    ensures !IsUploading(ClearUploading(flags, id), id)
  {
    if flags != [] {
      ClearUploadingSpec(flags[1..], id);
      var head := if flags[0].taskId == id then [] else [flags[0]];
      var tail := ClearUploading(flags[1..], id);
      assert ClearUploading(flags, id) == head + tail;
      assert forall j :: |head| <= j < |head + tail| ==> (head + tail)[j] == tail[j - |head|];
    }
  }

  // ---------------------------------------------------------------------------
  // Lemmas about the entry lists
  // ---------------------------------------------------------------------------

  lemma {:induction false} EntriesAppend(a: seq<UploadFlag>, b: seq<UploadFlag>, id: string)
    ensures Entries(a + b, id) == Entries(a, id) + Entries(b, id)
  {
    if a == [] {
      assert a + b == b;
    } else {
      var head := if a[0].taskId == id then [a[0]] else [];
      assert (a + b)[0] == a[0] && (a + b)[1..] == a[1..] + b;
      assert Entries(a + b, id) == head + Entries(a[1..] + b, id);
      EntriesAppend(a[1..], b, id);
      assert head + (Entries(a[1..], id) + Entries(b, id))
          == (head + Entries(a[1..], id)) + Entries(b, id);
    }
  }

  lemma {:induction false} NoEntries(flags: seq<UploadFlag>, id: string)
    requires forall j :: 0 <= j < |flags| ==> flags[j].taskId != id
    ensures Entries(flags, id) == []
  {
    if flags != [] {
      NoEntries(flags[1..], id);
    }
  }

  /** Replacing the first entry for `id` by `v` replaces the head of its entry list. */
  lemma {:induction false} EntriesUpdateFirst(flags: seq<UploadFlag>, k: nat, v: UploadFlag, id: string)
    requires k < |flags| && flags[k].taskId == id && v.taskId == id
    requires forall j :: 0 <= j < k ==> flags[j].taskId != id
    ensures Entries(flags, id) != []
    ensures Entries(flags[k := v], id) == [v] + Entries(flags, id)[1..]
    ensures forall other :: other != id ==> Entries(flags[k := v], other) == Entries(flags, other)
  {
    if k == 0 {
      assert flags[k := v][1..] == flags[1..];
    } else {
      assert flags[k := v][1..] == flags[1..][k - 1 := v];
      EntriesUpdateFirst(flags[1..], k - 1, v, id);
    }
  }

  /** Clearing `id` empties its entry list and keeps every other task's entries in order. */
  lemma {:induction false} ClearEntries(flags: seq<UploadFlag>, id: string, other: string)
    ensures Entries(ClearUploading(flags, id), other) == if other == id then [] else Entries(flags, other)
  {
    if flags != [] {
      ClearEntries(flags[1..], id, other);
      var head := if flags[0].taskId == id then [] else [flags[0]];
      EntriesAppend(head, ClearUploading(flags[1..], id), other);
    }
  }

  /** The cleanup filter drops exactly the entries of `id`. */
  lemma {:induction false} ClearLength(flags: seq<UploadFlag>, id: string)
    ensures |ClearUploading(flags, id)| == |flags| - Count(flags, id)
  {
    if flags != [] {
      ClearLength(flags[1..], id);
    }
  }

  /** An entry survives the cleanup filter exactly when it belongs to another task. */
  lemma {:induction false} ClearMembers(flags: seq<UploadFlag>, id: string, x: UploadFlag)
    ensures x in ClearUploading(flags, id) <==> x in flags && x.taskId != id
  {
    if flags != [] {
      ClearMembers(flags[1..], id, x);
      assert x in flags <==> x == flags[0] || x in flags[1..];
    }
  }

  /** The cleanup filter distributes over concatenation. */
  lemma {:induction false} ClearAppend(a: seq<UploadFlag>, b: seq<UploadFlag>, id: string)
    ensures ClearUploading(a + b, id) == ClearUploading(a, id) + ClearUploading(b, id)
  {
    if a == [] {
      assert a + b == b;
    } else {
      var head := if a[0].taskId == id then [] else [a[0]];
      var rest := ClearUploading(a[1..], id);
      var cb := ClearUploading(b, id);
      assert (a + b)[0] == a[0] && (a + b)[1..] == a[1..] + b;
      assert ClearUploading(a + b, id) == head + ClearUploading(a[1..] + b, id);
      assert ClearUploading(a, id) == head + rest;
      ClearAppend(a[1..], b, id);
      assert head + (rest + cb) == (head + rest) + cb;
    }
  }

  /** Rewriting an entry of `id` as another entry of `id` is invisible after the cleanup filter. */
  lemma {:induction false} ClearUpdate(flags: seq<UploadFlag>, k: nat, v: UploadFlag, id: string)
    requires k < |flags| && flags[k].taskId == id && v.taskId == id
    ensures ClearUploading(flags[k := v], id) == ClearUploading(flags, id)
  {
    if k == 0 {
      assert flags[k := v][1..] == flags[1..];
    } else {
      assert flags[k := v][1..] == flags[1..][k - 1 := v];
      ClearUpdate(flags[1..], k - 1, v, id);
    }
  }

  /** The `finally` of the file upload undoes its find-or-append. */
  lemma ClearAfterMark(flags: seq<UploadFlag>, id: string)
    ensures ClearUploading(MarkUploading(flags, id), id) == ClearUploading(flags, id)
  {
    match FindIndex(flags, id)
    case Some(k) =>
      ClearUpdate(flags, k, flags[k].(status := true), id);
    case None =>
      ClearAppend(flags, [UploadFlag(true, id)], id);
      assert ClearUploading([UploadFlag(true, id)], id) == [];
  }

  /** The `finally` of the recording upload undoes its append. */
  lemma ClearAfterAppend(flags: seq<UploadFlag>, id: string)
    ensures ClearUploading(AppendUploading(flags, id), id) == ClearUploading(flags, id)
  {
    ClearAppend(flags, [UploadFlag(true, id)], id);
    assert ClearUploading([UploadFlag(true, id)], id) == [];
  }

  /** Marking one task leaves every other task's entries, and its spinner, as they were. */
  lemma MarkOther(flags: seq<UploadFlag>, id: string, other: string)
    requires other != id
    ensures Entries(MarkUploading(flags, id), other) == Entries(flags, other)
    ensures IsUploading(MarkUploading(flags, id), other) <==> IsUploading(flags, other)
  {
    var r := MarkUploading(flags, id);
    MarkUploadingSpec(flags, id);
    match FindIndex(flags, id)
    case Some(k) =>
      EntriesUpdateFirst(flags, k, r[k], id);
    case None =>
      EntriesAppend(flags, [UploadFlag(true, id)], other);
      assert Entries([UploadFlag(true, id)], other) == [];
      assert r == flags + [UploadFlag(true, id)];
      if IsUploading(r, other) {
        var j :| 0 <= j < |r| && r[j].taskId == other && r[j].status;
        assert j < |flags|;
      }
  }

  /** Clearing one task leaves every other task's spinner as it was. */
  lemma {:induction false} ClearOther(flags: seq<UploadFlag>, id: string, other: string)
    requires other != id
    ensures IsUploading(ClearUploading(flags, id), other) <==> IsUploading(flags, other)
  {
    var r := ClearUploading(flags, id);
    if IsUploading(flags, other) {
      var j :| 0 <= j < |flags| && flags[j].taskId == other && flags[j].status;
      ClearMembers(flags, id, flags[j]);
      var i :| 0 <= i < |r| && r[i] == flags[j];
    }
    if IsUploading(r, other) {
      var i :| 0 <= i < |r| && r[i].taskId == other && r[i].status;
      ClearMembers(flags, id, r[i]);
      var j :| 0 <= j < |flags| && flags[j] == r[i];
    }
  }
}
