/**
 Shareable links of one report (reports.service.ts, uploaded-report.action.ts): a database row that
 names a remote file, uploads that replace the file, and deletions by delayed jobs or by an access
 to an expired link. The row and the remote store are updated by separate calls.

 Files and jobs are numbered by `nextFile` and `nextJob`, so no name is used twice. Two fields are
 history: `retired`, the files the row has named and no longer names, and `lost`, the files removed
 from under the row by an upload or a deletion that failed half way.
 */
module ShareLinks {
  import opened Wrappers

  /** Each upload generates one share token and one file, so `file` stands for both. */
  datatype Row = Row(file: nat, deleteJob: Option<nat>)

  datatype Upload =
    | Uploaded(file: nat)                           // remote file written, row not yet
    | Committed(file: nat, replaced: Option<Row>)   // row written, with the row it replaced
    | JobRemoved(file: nat, replaced: Option<Row>)
    | OldDeleted(file: nat)
    | JobAdded(file: nat, job: nat)

  datatype Delete =
    | Requested(file: nat)
    | Matched(file: nat)
    | Destroyed(file: nat)

  datatype State = State(
    row: Option<Row>,
    remote: set<nat>,
    jobs: map<nat, nat>,            // queued delete jobs -> file
    uploads: map<nat, Upload>,
    deletes: map<nat, Delete>,
    nextFile: nat,
    nextJob: nat,
    retired: set<nat>,
    lost: set<nat>)

  datatype Event =
    | Send(u: nat)
    | Upsert(u: nat)
    | FailEarly(u: nat)
    | RemoveJob(u: nat)
    | DeleteOld(u: nat)
    | AddJob(u: nat)
    | RecordJob(u: nat)
    | StartJob(d: nat, job: nat)
    | StartAccess(d: nat)
    | Check(d: nat)
    | Destroy(d: nat)
    | DeleteRow(d: nat)
    | GiveUp(d: nat)
    | Retry(d: nat, x: nat)   // the queue runs a failed deletion again
    | FailLate(u: nat)        // an upload fails after its row committed, adding or recording its job
    | LoseDelete(d: nat)      // a deletion stops between the remote file and the row

  function RowFile(s: State): set<nat> { if s.row.Some? then {s.row.value.file} else {} }

  function UploadTo(s: State, u: nat, phase: Upload): State { s.(uploads := s.uploads[u := phase]) }

  /** upsertUploadedReport: under the row lock, the old row's job id is kept. */
  function UpsertStep(s: State, u: nat): State {
    if u !in s.uploads || !s.uploads[u].Uploaded? then s else
    var f := s.uploads[u].file;
    var job := if s.row.Some? then s.row.value.deleteJob else None;
    UploadTo(s, u, Committed(f, s.row)).(row := Some(Row(f, job)), retired := s.retired + RowFile(s))
  }

  function RemoveJobStep(s: State, u: nat): State {
    if u !in s.uploads || !s.uploads[u].Committed? then s else
    var Committed(f, replaced) := s.uploads[u];
    var s' := UploadTo(s, u, JobRemoved(f, replaced));
    if replaced.Some? && replaced.value.deleteJob.Some?
    then s'.(jobs := s.jobs - {replaced.value.deleteJob.value}) else s'
  }

  function DeleteOldStep(s: State, u: nat): State {
    if u !in s.uploads || !s.uploads[u].JobRemoved? then s else
    var JobRemoved(f, replaced) := s.uploads[u];
    var s' := UploadTo(s, u, OldDeleted(f));
    if replaced.Some? && replaced.value.file != f then s'.(remote := s.remote - {replaced.value.file}) else s'
  }

  function RecordJobStep(s: State, u: nat): State {
    if u !in s.uploads || !s.uploads[u].JobAdded? then s else
    var s' := s.(uploads := s.uploads - {u});
    if s.row.Some? && s.row.value.file == s.uploads[u].file
    then s'.(row := Some(s.row.value.(deleteJob := Some(s.uploads[u].job)))) else s'
  }

  function CheckStep(s: State, d: nat): State {
    if d !in s.deletes || !s.deletes[d].Requested? then s else
    var p := s.deletes[d].file;
    if s.row.Some? && s.row.value.file == p
    then s.(deletes := s.deletes[d := Matched(p)]) else s.(deletes := s.deletes - {d})
  }

  function DestroyStep(s: State, d: nat): State {
    if d !in s.deletes || !s.deletes[d].Matched? then s else
    var p := s.deletes[d].file;
    s.(remote := s.remote - {p}, deletes := s.deletes[d := Destroyed(p)])
  }

  /** The delete is conditional on the file: it spares a row that names another. */
  function DeleteRowStep(s: State, d: nat): State {
    if d !in s.deletes || !s.deletes[d].Destroyed? then s else
    var p := s.deletes[d].file;
    var s' := s.(deletes := s.deletes - {d});
    if s.row.Some? && s.row.value.file == p then s'.(row := None, retired := s.retired + {p}) else s'
  }

  /** Files that the row has named: only these are ever deleted by jobs, accesses or uploads. */
  predicate Known(s: State, x: nat) { x in s.retired || x in RowFile(s) }

  /** The catch block deletes the new file. Until the job is added nothing throws once the row committed. */
  function FailLateStep(s: State, u: nat): State {
    if u !in s.uploads || !(s.uploads[u].OldDeleted? || s.uploads[u].JobAdded?) then s else
    var f := s.uploads[u].file;
    s.(uploads := s.uploads - {u}, remote := s.remote - {f}, lost := s.lost + {f})
  }

  function Next(s: State, e: Event): State {
    match e
    case Send(u) =>
      if u in s.uploads then s
      else UploadTo(s, u, Uploaded(s.nextFile)).(remote := s.remote + {s.nextFile}, nextFile := s.nextFile + 1)
    case Upsert(u) => UpsertStep(s, u)
    case FailEarly(u) =>
      if u in s.uploads && s.uploads[u].Uploaded?
      then s.(uploads := s.uploads - {u}, remote := s.remote - {s.uploads[u].file}) else s
    case RemoveJob(u) => RemoveJobStep(s, u)
    case DeleteOld(u) => DeleteOldStep(s, u)
    case AddJob(u) =>
      if u in s.uploads && s.uploads[u].OldDeleted?
      then UploadTo(s, u, JobAdded(s.uploads[u].file, s.nextJob)).(
             jobs := s.jobs[s.nextJob := s.uploads[u].file], nextJob := s.nextJob + 1)
      else s
    case RecordJob(u) => RecordJobStep(s, u)
    case StartJob(d, job) =>
      if d !in s.deletes && job in s.jobs
      then s.(deletes := s.deletes[d := Requested(s.jobs[job])], jobs := s.jobs - {job}) else s
    case StartAccess(d) =>
      if d !in s.deletes && s.row.Some? then s.(deletes := s.deletes[d := Requested(s.row.value.file)]) else s
    case Check(d) => CheckStep(s, d)
    case Destroy(d) => DestroyStep(s, d)
    case DeleteRow(d) => DeleteRowStep(s, d)
    case GiveUp(d) =>
      if d in s.deletes && !s.deletes[d].Destroyed? then s.(deletes := s.deletes - {d}) else s
    case Retry(d, x) =>
      if d !in s.deletes && Known(s, x) then s.(deletes := s.deletes[d := Requested(x)]) else s
    case FailLate(u) => FailLateStep(s, u)
    case LoseDelete(d) =>
      if d in s.deletes && s.deletes[d].Destroyed?
      then s.(deletes := s.deletes - {d}, lost := s.lost + {s.deletes[d].file}) else s
  }

  function Run(s: State, es: seq<Event>): State
    decreases |es|
  {
    if es == [] then s else Run(Next(s, es[0]), es[1..])
  }

  const EMPTY: State := State(None, {}, map[], map[], map[], 0, 0, {}, {})

  /** Storage calls succeed, and uploads fail only before their row commits. */
  predicate Benign(e: Event) { !e.FailLate? && !e.LoseDelete? }

  // ---- The invariant --------------------------------------------------------------------

  predicate PendingOld(s: State, u: nat, x: nat) {
    && u in s.uploads && (s.uploads[u].Committed? || s.uploads[u].JobRemoved?)
    && s.uploads[u].replaced.Some? && s.uploads[u].replaced.value.file == x
  }

  /** Every remote file is the row's, an upload's on its way to the row, or one an upload will delete. */
  ghost predicate Accounted(s: State, x: nat) {
    || x in RowFile(s)
    || (exists u :: u in s.uploads && s.uploads[u] == Uploaded(x))
    || (exists u :: PendingOld(s, u, x))
  }

  ghost predicate JobOk(s: State, job: nat) { job < s.nextJob && (job in s.jobs ==> Known(s, s.jobs[job])) }

  ghost predicate RowOk(s: State) {
    s.row.Some? ==>
      && s.row.value.file < s.nextFile && s.row.value.file !in s.retired
      && (s.row.value.file in s.remote || s.row.value.file in s.lost
          || exists d :: d in s.deletes && s.deletes[d] == Destroyed(s.row.value.file))
      && (s.row.value.deleteJob.Some? ==> JobOk(s, s.row.value.deleteJob.value))
  }

  ghost predicate UploadOk(s: State, u: nat)
    requires u in s.uploads
  {
    var f := s.uploads[u].file;
    && f < s.nextFile
    && match s.uploads[u]
       case Uploaded(_) =>
         && f in s.remote && !Known(s, f)
         && (forall v :: v in s.uploads && v != u && s.uploads[v].Uploaded? ==> s.uploads[v].file != f)
       case Committed(_, replaced) =>
         && Known(s, f)
         && (replaced.Some? ==> replaced.value.file in s.retired && replaced.value.file != f)
         && (replaced.Some? && replaced.value.deleteJob.Some? ==>
               var job := replaced.value.deleteJob.value;
               job < s.nextJob && (job in s.jobs ==> s.jobs[job] in s.retired))
       case JobRemoved(_, replaced) =>
         Known(s, f) && (replaced.Some? ==> replaced.value.file in s.retired && replaced.value.file != f)
       case OldDeleted(_) => Known(s, f)
       case JobAdded(_, job) => Known(s, f) && JobOk(s, job) && (job in s.jobs ==> s.jobs[job] == f)
  }

  ghost predicate DeleteOk(s: State, d: nat)
    requires d in s.deletes
  {
    Known(s, s.deletes[d].file) && (s.deletes[d].Destroyed? ==> s.deletes[d].file !in s.remote)
  }

  ghost predicate LostOk(s: State) { forall x :: x in s.lost ==> x !in s.remote && Known(s, x) }

  ghost predicate Inv(s: State) {
    && RowOk(s)
    && LostOk(s)
    && (forall x :: x in s.retired || x in s.remote ==> x < s.nextFile)
    && (forall x :: x in s.remote ==> Accounted(s, x))
    && (forall u :: u in s.uploads ==> UploadOk(s, u))
    && (forall d :: d in s.deletes ==> DeleteOk(s, d))
    && (forall job :: job in s.jobs ==> JobOk(s, job))
  }

  /** The files still to be accounted for after an upload leaves phase `s.uploads[u]`. */
  lemma AccountedElsewhere(s: State, s': State, u: nat, x: nat)
    requires Accounted(s, x) && u in s.uploads
    requires forall v :: v in s.uploads && v != u ==> v in s'.uploads && s'.uploads[v] == s.uploads[v]
    requires RowFile(s) <= RowFile(s')
    requires s.uploads[u] != Uploaded(x) && !PendingOld(s, u, x)
    ensures Accounted(s', x)
  {
    if u' :| u' in s.uploads && s.uploads[u'] == Uploaded(x) {
      assert s'.uploads[u'] == Uploaded(x);
    } else if u' :| PendingOld(s, u', x) {
      assert PendingOld(s', u', x);
    }
  }

  /** What a step of upload `u` after its row committed leaves of the other uploads. */
  lemma OtherUpload(s: State, s': State, u: nat, v: nat)
    requires v in s.uploads && v != u && UploadOk(s, v) && v in s'.uploads && s'.uploads[v] == s.uploads[v]
    requires forall w :: w in s'.uploads && s'.uploads[w].Uploaded? ==> w in s.uploads && s'.uploads[w] == s.uploads[w]
    requires s.nextFile == s'.nextFile && s.nextJob <= s'.nextJob && s'.retired == s.retired && RowFile(s') == RowFile(s)
    requires forall x :: x in s.remote && x !in s.retired ==> x in s'.remote
    requires forall job :: job in s'.jobs && job < s.nextJob ==> job in s.jobs && s'.jobs[job] == s.jobs[job]
    ensures UploadOk(s', v)
  {
  }

  lemma LostStays(s: State, s': State)
    requires LostOk(s) && s'.lost == s.lost && s'.remote <= s.remote && s'.retired == s.retired && RowFile(s') == RowFile(s)
    ensures LostOk(s')
  {
  }

  lemma SendInv(s: State, u: nat)
    requires Inv(s)
    ensures Inv(Next(s, Send(u)))
  {
    var s' := Next(s, Send(u));
    if s' != s {
      forall x | x in s'.remote ensures Accounted(s', x) {
        if x == s.nextFile {
          assert s'.uploads[u] == Uploaded(x);
        } else if v :| v in s.uploads && s.uploads[v] == Uploaded(x) {
          assert s'.uploads[v] == Uploaded(x);
        } else if v :| PendingOld(s, v, x) {
          assert PendingOld(s', v, x);
        }
      }
      forall v | v in s'.uploads ensures UploadOk(s', v) { assert v != u ==> UploadOk(s, v); }
      forall d | d in s'.deletes ensures DeleteOk(s', d) { assert DeleteOk(s, d); }
    }
  }

  lemma UpsertInv(s: State, u: nat)
    requires Inv(s)
    ensures Inv(UpsertStep(s, u))
  {
    var s' := UpsertStep(s, u);
    if s' != s {
      var f := s.uploads[u].file;
      assert UploadOk(s, u);
      forall x | x in s'.remote ensures Accounted(s', x) {
        assert Accounted(s, x);
        if x in RowFile(s) {
          assert PendingOld(s', u, x);
        } else if v :| v in s.uploads && s.uploads[v] == Uploaded(x) {
          assert v == u || s'.uploads[v] == Uploaded(x);
        } else if v :| PendingOld(s, v, x) {
          assert PendingOld(s', v, x);
        }
      }
      forall v | v in s'.uploads ensures UploadOk(s', v) { assert UploadOk(s, v); }
      forall d | d in s'.deletes ensures DeleteOk(s', d) { assert DeleteOk(s, d); }
      forall job | job in s'.jobs ensures JobOk(s', job) { assert JobOk(s, job); }
    }
  }

  lemma FailEarlyInv(s: State, u: nat)
    requires Inv(s)
    ensures Inv(Next(s, FailEarly(u)))
  {
    var s' := Next(s, FailEarly(u));
    if s' != s {
      var f := s.uploads[u].file;
      assert UploadOk(s, u);
      forall x | x in s'.remote ensures Accounted(s', x) { AccountedElsewhere(s, s', u, x); }
      forall v | v in s'.uploads ensures UploadOk(s', v) { assert UploadOk(s, v); }
      forall d | d in s'.deletes ensures DeleteOk(s', d) { assert DeleteOk(s, d); }
    }
  }

  lemma PendingIsAccounted(s: State, u: nat, x: nat)
    requires PendingOld(s, u, x)
    ensures Accounted(s, x)
  {
  }

  lemma RemoveJobUploads(s: State, u: nat)
    requires Inv(s) && RemoveJobStep(s, u) != s
    ensures var s' := RemoveJobStep(s, u); forall v :: v in s'.uploads ==> UploadOk(s', v)
  {
    var s' := RemoveJobStep(s, u);
    assert UploadOk(s, u);
    assert UploadOk(s', u);
    hide UploadOk, Accounted;
    forall v | v in s'.uploads ensures UploadOk(s', v) { if v != u { OtherUpload(s, s', u, v); } }
  }

  lemma RemoveJobRemote(s: State, u: nat)
    requires Inv(s) && RemoveJobStep(s, u) != s
    ensures var s' := RemoveJobStep(s, u); forall x :: x in s'.remote ==> Accounted(s', x)
  {
    var s' := RemoveJobStep(s, u);
    assert UploadOk(s, u);
    hide UploadOk, Accounted, LostOk, RowOk, JobOk, DeleteOk;
    forall x | x in s'.remote ensures Accounted(s', x) {
      if PendingOld(s, u, x) { PendingIsAccounted(s', u, x); } else { AccountedElsewhere(s, s', u, x); }
    }
  }

  lemma RemoveJobInv(s: State, u: nat)
    requires Inv(s)
    ensures Inv(RemoveJobStep(s, u))
  {
    var s' := RemoveJobStep(s, u);
    if s' != s {
      assert UploadOk(s, u);
      RemoveJobUploads(s, u);
      RemoveJobRemote(s, u);
      LostStays(s, s');
      hide UploadOk, Accounted, LostOk;
      forall d | d in s'.deletes ensures DeleteOk(s', d) { assert DeleteOk(s, d); }
      forall job | job in s'.jobs ensures JobOk(s', job) { assert JobOk(s, job); }
    }
  }

  lemma DeleteOldUploads(s: State, u: nat)
    requires Inv(s) && DeleteOldStep(s, u) != s
    ensures var s' := DeleteOldStep(s, u); forall v :: v in s'.uploads ==> UploadOk(s', v)
  {
    var s' := DeleteOldStep(s, u);
    assert UploadOk(s, u);
    assert UploadOk(s', u);
    hide UploadOk, Accounted;
    forall v | v in s'.uploads ensures UploadOk(s', v) { if v != u { OtherUpload(s, s', u, v); } }
  }

  lemma DeleteOldRemote(s: State, u: nat)
    requires Inv(s) && DeleteOldStep(s, u) != s
    ensures var s' := DeleteOldStep(s, u); forall x :: x in s'.remote ==> Accounted(s', x)
  {
    var s' := DeleteOldStep(s, u);
    assert UploadOk(s, u);
    hide UploadOk, Accounted, LostOk, RowOk, JobOk, DeleteOk;
    forall x | x in s'.remote ensures Accounted(s', x) {
      AccountedElsewhere(s, s', u, x);
    }
  }

  lemma DeleteOldInv(s: State, u: nat)
    requires Inv(s)
    ensures Inv(DeleteOldStep(s, u))
  {
    var s' := DeleteOldStep(s, u);
    if s' != s {
      assert UploadOk(s, u);
      DeleteOldUploads(s, u);
      DeleteOldRemote(s, u);
      LostStays(s, s');
      hide UploadOk, Accounted, LostOk;
      forall d | d in s'.deletes ensures DeleteOk(s', d) { assert DeleteOk(s, d); }
      forall job | job in s'.jobs ensures JobOk(s', job) { assert JobOk(s, job); }
    }
  }

  lemma AddJobInv(s: State, u: nat)
    requires Inv(s)
    ensures Inv(Next(s, AddJob(u)))
  {
    var s' := Next(s, AddJob(u));
    if s' != s {
      assert UploadOk(s, u);
      assert u in s'.uploads ==> UploadOk(s', u);
      LostStays(s, s');
      hide UploadOk, Accounted, LostOk;
      forall x | x in s'.remote ensures Accounted(s', x) {
        AccountedElsewhere(s, s', u, x);
      }
      forall v | v in s'.uploads ensures UploadOk(s', v) { if v != u { OtherUpload(s, s', u, v); } }
      forall d | d in s'.deletes ensures DeleteOk(s', d) { assert DeleteOk(s, d); }
      forall job | job in s'.jobs ensures JobOk(s', job) { assert job in s.jobs ==> JobOk(s, job); }
    }
  }

  lemma RecordJobInv(s: State, u: nat)
    requires Inv(s)
    ensures Inv(RecordJobStep(s, u))
  {
    var s' := RecordJobStep(s, u);
    if s' != s {
      assert UploadOk(s, u);
      LostStays(s, s');
      hide UploadOk, Accounted, LostOk;
      forall x | x in s'.remote ensures Accounted(s', x) {
        AccountedElsewhere(s, s', u, x);
      }
      forall v | v in s'.uploads ensures UploadOk(s', v) { if v != u { OtherUpload(s, s', u, v); } }
      forall d | d in s'.deletes ensures DeleteOk(s', d) { assert DeleteOk(s, d); }
      forall job | job in s'.jobs ensures JobOk(s', job) { assert JobOk(s, job); }
    }
  }

  /** Deletions leave the uploads alone, so what an upload accounts for stays accounted for. */
  lemma SameUploads(s: State, s': State, x: nat)
    requires Accounted(s, x) && s'.uploads == s.uploads && (x in RowFile(s) ==> x in RowFile(s'))
    ensures Accounted(s', x)
  {
    if v :| PendingOld(s, v, x) { assert PendingOld(s', v, x); }
  }

  lemma StartInv(s: State, e: Event)
    requires Inv(s) && (e.StartJob? || e.StartAccess? || e.GiveUp? || e.Retry?)
    ensures Inv(Next(s, e))
  {
    hide UploadOk, Accounted;
    var s' := Next(s, e);
    if s' != s {
      forall x | x in s'.remote ensures Accounted(s', x) { SameUploads(s, s', x); }
      forall v | v in s'.uploads ensures UploadOk(s', v) { FewerJobs(s, s', v); }
      forall k | k in s'.deletes ensures DeleteOk(s', k) {
        if k in s.deletes { assert DeleteOk(s, k); } else if e.StartJob? { assert JobOk(s, e.job); }
      }
      forall job | job in s'.jobs ensures JobOk(s', job) { assert JobOk(s, job); }
      if s.row.Some? && s.row.value.file !in s.remote && s.row.value.file !in s.lost {
        var k :| k in s.deletes && s.deletes[k] == Destroyed(s.row.value.file);
        assert s'.deletes[k] == Destroyed(s.row.value.file);
      }
    }
  }

  lemma FewerJobs(s: State, s': State, v: nat)
    requires v in s.uploads && UploadOk(s, v) && s'.uploads == s.uploads && s'.row == s.row && s'.retired == s.retired
    requires s'.remote == s.remote && s'.nextFile == s.nextFile && s'.nextJob == s.nextJob
    requires forall job :: job in s'.jobs ==> job in s.jobs && s'.jobs[job] == s.jobs[job]
    ensures UploadOk(s', v)
  {
  }

  lemma CheckInv(s: State, d: nat)
    requires Inv(s)
    ensures Inv(CheckStep(s, d))
  {
    hide UploadOk, Accounted;
    var s' := CheckStep(s, d);
    if s' != s {
      forall x | x in s'.remote ensures Accounted(s', x) { SameUploads(s, s', x); }
      forall v | v in s'.uploads ensures UploadOk(s', v) { FewerJobs(s, s', v); }
      forall k | k in s'.deletes ensures DeleteOk(s', k) { assert DeleteOk(s, k); }
      forall job | job in s'.jobs ensures JobOk(s', job) { assert JobOk(s, job); }
      if s.row.Some? && s.row.value.file !in s.remote && s.row.value.file !in s.lost {
        var k :| k in s.deletes && s.deletes[k] == Destroyed(s.row.value.file);
        assert s'.deletes[k] == Destroyed(s.row.value.file);
      }
    }
  }

  lemma DestroyInv(s: State, d: nat)
    requires Inv(s)
    ensures Inv(DestroyStep(s, d))
  {
    hide Accounted;
    var s' := DestroyStep(s, d);
    if s' != s {
      assert DeleteOk(s, d) && s'.deletes[d] == Destroyed(s.deletes[d].file);
      forall x | x in s'.remote ensures Accounted(s', x) { SameUploads(s, s', x); }
      forall v | v in s'.uploads ensures UploadOk(s', v) { assert UploadOk(s, v); }
      forall k | k in s'.deletes ensures DeleteOk(s', k) { assert DeleteOk(s, k); }
      forall job | job in s'.jobs ensures JobOk(s', job) { assert JobOk(s, job); }
      if s.row.Some? && s.row.value.file !in s.remote && s.row.value.file !in s.lost {
        var k :| k in s.deletes && s.deletes[k] == Destroyed(s.row.value.file);
        assert s'.deletes[k] == Destroyed(s.row.value.file);
      }
    }
  }

  lemma DeleteRowInv(s: State, d: nat)
    requires Inv(s)
    ensures Inv(DeleteRowStep(s, d))
  {
    hide Accounted;
    var s' := DeleteRowStep(s, d);
    if s' != s {
      assert DeleteOk(s, d);
      forall x | x in s'.remote ensures Accounted(s', x) { SameUploads(s, s', x); }
      forall v | v in s'.uploads ensures UploadOk(s', v) { assert UploadOk(s, v); }
      forall k | k in s'.deletes ensures DeleteOk(s', k) { assert DeleteOk(s, k); }
      forall job | job in s'.jobs ensures JobOk(s', job) { assert JobOk(s, job); }
      if s'.row.Some? && s.row.value.file !in s.remote && s.row.value.file !in s.lost {
        var k :| k in s.deletes && s.deletes[k] == Destroyed(s.row.value.file);
        assert s'.deletes[k] == Destroyed(s.row.value.file);
      }
    }
  }

  lemma FailLateInv(s: State, u: nat)
    requires Inv(s)
    ensures Inv(FailLateStep(s, u))
  {
    var s' := FailLateStep(s, u);
    if s' != s {
      assert UploadOk(s, u);
      forall v | v in s'.uploads ensures UploadOk(s', v) { assert UploadOk(s, v); }
      hide UploadOk, Accounted;
      forall x | x in s'.remote ensures Accounted(s', x) { AccountedElsewhere(s, s', u, x); }
      forall d | d in s'.deletes ensures DeleteOk(s', d) { assert DeleteOk(s, d); }
      forall job | job in s'.jobs ensures JobOk(s', job) { assert JobOk(s, job); }
    }
  }

  lemma LoseDeleteInv(s: State, d: nat)
    requires Inv(s)
    ensures Inv(Next(s, LoseDelete(d)))
  {
    hide UploadOk, Accounted;
    var s' := Next(s, LoseDelete(d));
    if s' != s {
      assert DeleteOk(s, d);
      forall x | x in s'.remote ensures Accounted(s', x) { SameUploads(s, s', x); }
      forall v | v in s'.uploads ensures UploadOk(s', v) { FewerJobs(s, s', v); }
      forall k | k in s'.deletes ensures DeleteOk(s', k) { assert DeleteOk(s, k); }
      forall job | job in s'.jobs ensures JobOk(s', job) { assert JobOk(s, job); }
      if s.row.Some? && s.row.value.file !in s.remote && s.row.value.file !in s'.lost {
        var k :| k in s.deletes && s.deletes[k] == Destroyed(s.row.value.file);
        assert s'.deletes[k] == Destroyed(s.row.value.file);
      }
    }
  }

  lemma NextInv(s: State, e: Event)
    requires Inv(s)
    ensures Inv(Next(s, e))
  {
    hide Inv;
    match e
    case Send(u) => SendInv(s, u);
    case Upsert(u) => UpsertInv(s, u);
    case FailEarly(u) => FailEarlyInv(s, u);
    case RemoveJob(u) => RemoveJobInv(s, u);
    case DeleteOld(u) => DeleteOldInv(s, u);
    case AddJob(u) => AddJobInv(s, u);
    case RecordJob(u) => RecordJobInv(s, u);
    case Check(d) => CheckInv(s, d);
    case Destroy(d) => DestroyInv(s, d);
    case DeleteRow(d) => DeleteRowInv(s, d);
    case FailLate(u) => FailLateInv(s, u);
    case LoseDelete(d) => LoseDeleteInv(s, d);
    case _ => StartInv(s, e);
  }

  lemma {:induction false} RunInv(s: State, es: seq<Event>)
    requires Inv(s)
    ensures Inv(Run(s, es))
    decreases |es|
  {
    hide Inv, Next;
    if es != [] {
      NextInv(s, es[0]);
      RunInv(Next(s, es[0]), es[1..]);
    }
  }

  // ---- Theorems -------------------------------------------------------------------------

  predicate Quiet(s: State) { s.uploads == map[] && s.deletes == map[] }

  /**
   However uploads, jobs, retries and accesses interleave and fail, when none is in flight no file leaks,
   and the files are the row's exactly when no late failure removed the row's own file.
   */
  lemma LateFailureDangles(es: seq<Event>)
    requires Quiet(Run(EMPTY, es))
    ensures var s := Run(EMPTY, es);
            && s.remote == RowFile(s) - s.lost
            && (s.remote == RowFile(s) <==> RowFile(s) !! s.lost)
  {
    RunInv(EMPTY, es);
    var s := Run(EMPTY, es);
    forall x | x in s.remote ensures x in RowFile(s) { assert Accounted(s, x); }
  }

  lemma {:induction false} BenignLosesNothing(s: State, es: seq<Event>)
    requires s.lost == {} && forall i :: 0 <= i < |es| ==> Benign(es[i])
    ensures Run(s, es).lost == {}
    decreases |es|
  {
    if es != [] {
      assert Next(s, es[0]).lost == {};
      BenignLosesNothing(Next(s, es[0]), es[1..]);
    }
  }

  /** Without such failures the files are always the row's when nothing is in flight. */
  lemma FilesMatchRow(es: seq<Event>)
    requires forall i :: 0 <= i < |es| ==> Benign(es[i])
    requires Run(EMPTY, es).uploads == map[] && Run(EMPTY, es).deletes == map[]
    ensures Run(EMPTY, es).remote == RowFile(Run(EMPTY, es))
  {
    LateFailureDangles(es);
    BenignLosesNothing(EMPTY, es);
  }

  /** A run that ends with a row whose file is gone: an upload commits its row and cannot add its delete job. */
  lemma LateFailureRun() returns (es: seq<Event>)
    ensures es == [Send(0), Upsert(0), RemoveJob(0), DeleteOld(0), FailLate(0)]
    ensures var s := Run(EMPTY, es); Quiet(s) && RowFile(s) == {0} && s.remote == {}
  {
    es := [Send(0), Upsert(0), RemoveJob(0), DeleteOld(0), FailLate(0)];
    hide RecordJobStep, CheckStep, DestroyStep, DeleteRowStep;
    var s1 := EMPTY.(uploads := map[0 := Uploaded(0)], remote := {0}, nextFile := 1);
    assert Next(EMPTY, es[0]) == s1;
    var s2 := s1.(uploads := map[0 := Committed(0, None)], row := Some(Row(0, None)));
    assert Next(s1, es[1]) == s2;
    var s3 := s2.(uploads := map[0 := JobRemoved(0, None)]);
    assert Next(s2, es[2]) == s3;
    var s4 := s3.(uploads := map[0 := OldDeleted(0)]);
    assert Next(s3, es[3]) == s4;
    var s5 := s4.(uploads := map[], remote := {}, lost := {0});
    assert Next(s4, es[4]) == s5 by { assert s4.uploads - {0} == map[]; }
    hide Next;
    assert es[1..][1..] == es[2..] && es[2..][1..] == es[3..] && es[3..][1..] == es[4..] && es[4..][1..] == [];
    assert Run(s4, es[4..]) == s5;
    assert Run(s3, es[3..]) == s5;
    assert Run(s2, es[2..]) == s5;
    assert Run(s1, es[1..]) == s5;
  }

  /** No step of a deletion touches a row that names another file, or that row's file. */
  lemma StaleDeletionIsHarmless(s: State, d: nat, e: Event)
    requires d in s.deletes && s.deletes[d].file !in RowFile(s)
    requires e in {Check(d), Destroy(d), DeleteRow(d), LoseDelete(d), GiveUp(d)}
    ensures Next(s, e).row == s.row
    ensures s.remote * RowFile(s) <= Next(s, e).remote
  {
  }

  lemma RetiredGrows(s: State, e: Event)
    ensures s.retired <= Next(s, e).retired
  {
  }

  lemma RetiredNotNamed(s: State, x: nat)
    requires Inv(s) && x in s.retired
    ensures x !in RowFile(s)
  {
  }

  /** Once superseded or deleted, a file is never named again, so its deletions stay harmless. */
  lemma {:induction false} RetiredForever(s: State, es: seq<Event>, x: nat)
    requires Inv(s) && x in s.retired
    ensures x in Run(s, es).retired && x !in RowFile(Run(s, es))
    decreases |es|
  {
    hide Inv, Next, RowFile;
    if es != [] {
      NextInv(s, es[0]);
      RetiredGrows(s, es[0]);
      RetiredForever(Next(s, es[0]), es[1..], x);
    } else {
      RetiredNotNamed(s, x);
    }
  }

  /** Cancelling a replaced upload's delete job never cancels the one for the current file. */
  lemma CurrentJobIsKept(s: State, u: nat, job: nat)
    requires Inv(s) && job in s.jobs && s.jobs[job] in RowFile(s)
    ensures job in RemoveJobStep(s, u).jobs
  {
    if u in s.uploads { assert UploadOk(s, u); }
  }

  // ---- The operations, one at a time ------------------------------------------------------

  datatype Error = NotFound | Conflict | Forbidden | Gone | ServiceUnavailable | InternalServerError

  const LINK_TTL: int := 7 * 24 * 60 * 60 * 1000

  /** An upload up to the point where it adds its delete job. */
  function Replaced(s: State): State {
    Next(Next(Next(Next(s, Send(0)), Upsert(0)), RemoveJob(0)), DeleteOld(0))
  }

  /** The steps of a whole upload, and what they come to when nothing else is in flight. */
  function UploadAlone(s: State): State { Next(Next(Replaced(s), AddJob(0)), RecordJob(0)) }

  function JobsLeft(s: State): map<nat, nat> {
    if s.row.Some? && s.row.value.deleteJob.Some? then s.jobs - {s.row.value.deleteJob.value} else s.jobs
  }

  lemma RowUpserted(s: State, f: nat)
    requires s.uploads == map[0 := Uploaded(f)]
    ensures Next(Next(s, Upsert(0)), RemoveJob(0))
            == s.(row := Some(Row(f, if s.row.Some? then s.row.value.deleteJob else None)), jobs := JobsLeft(s),
                  uploads := map[0 := JobRemoved(f, s.row)], retired := s.retired + RowFile(s))
  {
    hide DeleteOldStep, RecordJobStep, CheckStep, DestroyStep, DeleteRowStep, FailLateStep;
    var s2 := Next(s, Upsert(0));
    assert s2.uploads == map[0 := Committed(f, s.row)];
    assert Next(s2, RemoveJob(0)).uploads == map[0 := JobRemoved(f, s.row)];
  }

  lemma OldFileDeleted(s: State, f: nat, replaced: Option<Row>)
    requires s.uploads == map[0 := JobRemoved(f, replaced)]
    ensures Next(s, DeleteOld(0))
            == s.(remote := s.remote - (if replaced.Some? then {replaced.value.file} - {f} else {}), uploads := map[0 := OldDeleted(f)])
  {
    hide UpsertStep, RemoveJobStep, RecordJobStep, CheckStep, DestroyStep, DeleteRowStep, FailLateStep;
    assert Next(s, DeleteOld(0)).uploads == map[0 := OldDeleted(f)];
  }

  /** The row, the files and the jobs once the new row and file have replaced the old ones. */
  lemma ReplacedState(s: State)
    requires s.uploads == map[]
    ensures Replaced(s) == s.(
              row := Some(Row(s.nextFile, if s.row.Some? then s.row.value.deleteJob else None)),
              remote := s.remote + {s.nextFile} - (RowFile(s) - {s.nextFile}), jobs := JobsLeft(s),
              uploads := map[0 := OldDeleted(s.nextFile)],
              nextFile := s.nextFile + 1, retired := s.retired + RowFile(s))
  {
    var s1 := Next(s, Send(0));
    assert s1 == s.(uploads := map[0 := Uploaded(s.nextFile)], remote := s.remote + {s.nextFile}, nextFile := s.nextFile + 1);
    hide Next, JobsLeft;
    RowUpserted(s1, s.nextFile);
    OldFileDeleted(Next(Next(s1, Upsert(0)), RemoveJob(0)), s.nextFile, s.row);
    assert JobsLeft(s1) == JobsLeft(s) by { SameJobsLeft(s, s1); }
  }

  lemma SameJobsLeft(s: State, t: State)
    requires s.row == t.row && s.jobs == t.jobs
    ensures JobsLeft(s) == JobsLeft(t)
  {
  }

  /** From there: the job is added and recorded, or adding or recording it fails. */
  lemma Ending(s: State, f: nat)
    requires s.uploads == map[0 := OldDeleted(f)] && s.row.Some? && s.row.value.file == f
    ensures var added := s.(jobs := s.jobs[s.nextJob := f], nextJob := s.nextJob + 1);
            && Next(s, FailLate(0)) == s.(uploads := map[], remote := s.remote - {f}, lost := s.lost + {f})
            && Next(Next(s, AddJob(0)), FailLate(0))
               == added.(uploads := map[], remote := s.remote - {f}, lost := s.lost + {f})
            && Next(Next(s, AddJob(0)), RecordJob(0)) == added.(uploads := map[], row := Some(Row(f, Some(s.nextJob))))
  {
    hide UpsertStep, RemoveJobStep, DeleteOldStep, CheckStep, DestroyStep, DeleteRowStep;
    assert s.uploads - {0} == map[];
    var s5 := Next(s, AddJob(0));
    assert s5.uploads == map[0 := JobAdded(f, s.nextJob)];
    assert s5.uploads - {0} == map[];
  }

  /** A whole upload: a new row and file, the old file gone, and exactly one job, which the row names. */
  lemma UploadedState(s: State)
    requires s.uploads == map[]
    ensures UploadAlone(s) == s.(
              row := Some(Row(s.nextFile, Some(s.nextJob))),
              remote := s.remote + {s.nextFile} - (RowFile(s) - {s.nextFile}),
              jobs := JobsLeft(s)[s.nextJob := s.nextFile],
              nextFile := s.nextFile + 1, nextJob := s.nextJob + 1, retired := s.retired + RowFile(s))
  {
    ReplacedState(s);
    hide Next, JobsLeft, Replaced;
    Ending(Replaced(s), s.nextFile);
  }

  /** How a deletion goes: the file cannot be destroyed, or the row cannot be deleted after it, or all is well. */
  datatype Deletion = Undestroyed | RowKept | Deleted

  /** The steps of one deletion with nothing else in flight. */
  function DeleteAlone(s: State, how: Deletion): State {
    var c := Next(s, Check(0));
    match how
    case Undestroyed => Next(c, GiveUp(0))
    case RowKept => Next(Next(c, Destroy(0)), LoseDelete(0))
    case Deleted => Next(Next(c, Destroy(0)), DeleteRow(0))
  }

  lemma StaleDeletion(s: State, f: nat, how: Deletion)
    requires s.deletes == map[0 := Requested(f)] && f !in RowFile(s)
    ensures DeleteAlone(s, how) == s.(deletes := map[])
  {
    hide UpsertStep, RemoveJobStep, DeleteOldStep, RecordJobStep, FailLateStep;
    assert s.deletes - {0} == map[];
    assert Next(s, Check(0)) == s.(deletes := map[]);
  }

  lemma MatchedDeletion(s: State, f: nat)
    requires s.deletes == map[0 := Requested(f)] && f in RowFile(s)
    ensures var c := s.(deletes := map[0 := Matched(f)]);
            && Next(s, Check(0)) == c
            && Next(c, GiveUp(0)) == s.(deletes := map[])
            && Next(c, Destroy(0)) == s.(deletes := map[0 := Destroyed(f)], remote := s.remote - {f})
  {
    hide UpsertStep, RemoveJobStep, DeleteOldStep, RecordJobStep, FailLateStep;
    assert map[0 := Matched(f)] - {0} == map[];
  }

  lemma DestroyedDeletion(s: State, f: nat)
    requires s.deletes == map[0 := Destroyed(f)] && f in RowFile(s)
    ensures Next(s, LoseDelete(0)) == s.(deletes := map[], lost := s.lost + {f})
    ensures Next(s, DeleteRow(0)) == s.(deletes := map[], row := None, retired := s.retired + {f})
  {
    hide UpsertStep, RemoveJobStep, DeleteOldStep, RecordJobStep, FailLateStep;
    assert s.deletes - {0} == map[];
  }

  lemma DeletedState(s: State, f: nat, how: Deletion)
    requires s.deletes == map[0 := Requested(f)]
    ensures DeleteAlone(s, how) ==
            if f !in RowFile(s) || how.Undestroyed? then s.(deletes := map[])
            else if how.RowKept? then s.(deletes := map[], remote := s.remote - {f}, lost := s.lost + {f})
            else s.(deletes := map[], remote := s.remote - {f}, row := None, retired := s.retired + {f})
  {
    if f in RowFile(s) {
      MatchedDeletion(s, f);
      hide Next;
      DestroyedDeletion(s.(deletes := map[0 := Destroyed(f)], remote := s.remote - {f}), f);
    } else {
      StaleDeletion(s, f, how);
    }
  }

  /** A queued job that runs deletes the file it was queued for, and the row too while the row names it. */
  lemma DueJobDeletes(s: State, job: nat)
    requires s.deletes == map[] && job in s.jobs
    ensures var (t, f) := (DeleteAlone(Next(s, StartJob(0, job)), Deleted), s.jobs[job]);
            t == if f in RowFile(s)
                 then s.(jobs := s.jobs - {job}, row := None, remote := s.remote - {f}, retired := s.retired + {f})
                 else s.(jobs := s.jobs - {job})
  {
    var started := s.(jobs := s.jobs - {job}, deletes := map[0 := Requested(s.jobs[job])]);
    assert Next(s, StartJob(0, job)) == started by { hide DeleteRowStep, DestroyStep, CheckStep; }
    hide Next, DeleteAlone;
    DeletedState(started, s.jobs[job], Deleted);
  }

  /** Two uploads at once: both files are sent, and both rows written, before either cleans up. */
  function BothWritten(s: State): State { Next(Next(Next(Next(s, Send(1)), Send(2)), Upsert(1)), Upsert(2)) }

  function CleanUp(s: State, u: nat): State { Next(Next(s, RemoveJob(u)), DeleteOld(u)) }

  function Schedule(s: State, u: nat): State { Next(Next(s, AddJob(u)), RecordJob(u)) }

  lemma Sent(s: State, u: nat)
    requires u !in s.uploads
    ensures Next(s, Send(u))
            == s.(uploads := s.uploads[u := Uploaded(s.nextFile)], remote := s.remote + {s.nextFile}, nextFile := s.nextFile + 1)
  {
  }

  lemma Written(s: State, u: nat, f: nat)
    requires u in s.uploads && s.uploads[u] == Uploaded(f)
    ensures Next(s, Upsert(u))
            == s.(row := Some(Row(f, if s.row.Some? then s.row.value.deleteJob else None)),
                  uploads := s.uploads[u := Committed(f, s.row)], retired := s.retired + RowFile(s))
  {
    hide RemoveJobStep, DeleteOldStep, RecordJobStep, CheckStep, DestroyStep, DeleteRowStep, FailLateStep;
  }

  lemma BothWrittenState(s: State)
    requires s.uploads == map[]
    ensures var (f, g) := (s.nextFile, s.nextFile + 1);
            var job := if s.row.Some? then s.row.value.deleteJob else None;
            BothWritten(s) == s.(
              row := Some(Row(g, job)), remote := s.remote + {f} + {g}, nextFile := f + 2, retired := s.retired + RowFile(s) + {f},
              uploads := map[1 := Committed(f, s.row), 2 := Committed(g, Some(Row(f, job)))])
  {
    hide Next;
    var (f, g) := (s.nextFile, s.nextFile + 1);
    Sent(s, 1);
    var s1 := Next(s, Send(1));
    Sent(s1, 2);
    var s2 := Next(s1, Send(2));
    Written(s2, 1, f);
    var s3 := Next(s2, Upsert(1));
    Written(s3, 2, g);
    var job := if s.row.Some? then s.row.value.deleteJob else None;
    assert Next(s3, Upsert(2)).uploads == map[1 := Committed(f, s.row), 2 := Committed(g, Some(Row(f, job)))];
  }

  lemma CleanedUp(s: State, u: nat, f: nat, replaced: Option<Row>)
    requires u in s.uploads && s.uploads[u] == Committed(f, replaced)
    ensures CleanUp(s, u) == s.(
              uploads := s.uploads[u := OldDeleted(f)],
              jobs := if replaced.Some? && replaced.value.deleteJob.Some? then s.jobs - {replaced.value.deleteJob.value} else s.jobs,
              remote := if replaced.Some? && replaced.value.file != f then s.remote - {replaced.value.file} else s.remote)
  {
    hide UpsertStep, RecordJobStep, CheckStep, DestroyStep, DeleteRowStep, FailLateStep;
    assert Next(s, RemoveJob(u)).uploads == s.uploads[u := JobRemoved(f, replaced)];
    assert s.uploads[u := JobRemoved(f, replaced)][u := OldDeleted(f)] == s.uploads[u := OldDeleted(f)];
  }

  lemma Scheduled(s: State, u: nat, f: nat)
    requires u in s.uploads && s.uploads[u] == OldDeleted(f)
    ensures Schedule(s, u) == s.(
              uploads := s.uploads - {u}, jobs := s.jobs[s.nextJob := f], nextJob := s.nextJob + 1,
              row := if f in RowFile(s) then Some(s.row.value.(deleteJob := Some(s.nextJob))) else s.row)
  {
    hide UpsertStep, RemoveJobStep, DeleteOldStep, CheckStep, DestroyStep, DeleteRowStep, FailLateStep;
    assert s.uploads[u := JobAdded(f, s.nextJob)] - {u} == s.uploads - {u};
  }

  /**
   Of two uploads at once the row keeps the one that wrote it last, with that one's own job; of the three
   files only its file is left. The other's job stays queued, for a file that is gone.
   */
  lemma RacingUploads(s: State)
    requires s.uploads == map[] && s.nextFile !in RowFile(s) && s.nextFile + 1 !in RowFile(s)
    ensures var (f, g) := (s.nextFile, s.nextFile + 1);
            Schedule(Schedule(CleanUp(CleanUp(BothWritten(s), 1), 2), 1), 2) == s.(
              row := Some(Row(g, Some(s.nextJob + 1))), remote := s.remote + {f} + {g} - RowFile(s) - {f},
              jobs := JobsLeft(s)[s.nextJob := f][s.nextJob + 1 := g],
              nextFile := f + 2, nextJob := s.nextJob + 2, retired := s.retired + RowFile(s) + {f})
  {
    var (f, g) := (s.nextFile, s.nextFile + 1);
    BothWrittenState(s);
    BothCleanedUp(s, BothWritten(s));
    var two := CleanUp(CleanUp(BothWritten(s), 1), 2);
    hide BothWritten, CleanUp, Schedule, Next, JobsLeft;
    BothScheduled(two, f, g);
  }

  lemma BothScheduled(s: State, f: nat, g: nat)
    requires s.uploads == map[1 := OldDeleted(f), 2 := OldDeleted(g)] && f != g && s.row.Some? && s.row.value.file == g
    ensures Schedule(Schedule(s, 1), 2) == s.(
              uploads := map[], row := Some(Row(g, Some(s.nextJob + 1))), jobs := s.jobs[s.nextJob := f][s.nextJob + 1 := g],
              nextJob := s.nextJob + 2)
  {
    Scheduled(s, 1, f);
    var three := Schedule(s, 1);
    hide Schedule, Next;
    assert three.uploads == map[2 := OldDeleted(g)];
    Scheduled(three, 2, g);
    assert three.uploads - {2} == map[];
  }

  lemma BothCleanedUp(s: State, both: State)
    requires s.nextFile !in RowFile(s) && s.nextFile + 1 !in RowFile(s)
    requires var (f, g) := (s.nextFile, s.nextFile + 1);
             var job := if s.row.Some? then s.row.value.deleteJob else None;
             && both.jobs == s.jobs && both.remote == s.remote + {f} + {g}
             && both.uploads == map[1 := Committed(f, s.row), 2 := Committed(g, Some(Row(f, job)))]
    ensures CleanUp(CleanUp(both, 1), 2) == both.(
              uploads := map[1 := OldDeleted(s.nextFile), 2 := OldDeleted(s.nextFile + 1)], jobs := JobsLeft(s),
              remote := s.remote + {s.nextFile} + {s.nextFile + 1} - RowFile(s) - {s.nextFile})
  {
    var (f, g) := (s.nextFile, s.nextFile + 1);
    var job := if s.row.Some? then s.row.value.deleteJob else None;
    CleanedUp(both, 1, f, s.row);
    var one := CleanUp(both, 1);
    CleanedUp(one, 2, g, Some(Row(f, job)));
    hide CleanUp, Next;
    assert CleanUp(one, 2).uploads == map[1 := OldDeleted(f), 2 := OldDeleted(g)];
    assert CleanUp(one, 2).jobs == JobsLeft(s);
    assert CleanUp(one, 2).remote == s.remote + {f} + {g} - RowFile(s) - {f};
  }

  class ShareService {
    var row: Option<Row>
    var remote: set<nat>
    var jobs: map<nat, nat>
    var expiresAt: int                 // of the row's link
    var downloads: nat                 // of the row
    var nextFile: nat
    var nextJob: nat
    ghost var retired: set<nat>
    ghost var lost: set<nat>

    constructor ()
      ensures Seen() == EMPTY
    {
      row, remote, jobs, nextFile, nextJob, retired, lost := None, {}, map[], 0, 0, {}, {};
      expiresAt, downloads := 0, 0;
    }

    ghost function Seen(): State
      reads this
    {
      State(row, remote, jobs, map[], map[], nextFile, nextJob, retired, lost)
    }

    /** Inserts the row or replaces its file and expiry under the lock; the job and the downloads stay. */
    method UpsertUploadedReport(file: nat, expiry: int) returns (existing: Option<Row>)
      modifies this`row, this`retired, this`expiresAt, this`downloads
      ensures existing == old(row) && expiresAt == expiry
      ensures row == Some(Row(file, if old(row).Some? then old(row).value.deleteJob else None))
      ensures downloads == if old(row).Some? then old(downloads) else 0
      ensures retired == old(retired) + RowFile(old(Seen()))
    {
      existing := row;
      retired, expiresAt := retired + RowFile(Seen()), expiry;
      if existing.Some? {
        row := Some(existing.value.(file := file));
      } else {
        row, downloads := Some(Row(file, None)), 0;
      }
    }

    /** The row takes over the stored file; the old row's job and file go. */
    method ReplaceRow(file: nat, now: int)
      modifies this
      ensures Seen().(uploads := map[0 := OldDeleted(file)])
              == Next(Next(Next(old(Seen()).(uploads := map[0 := Uploaded(file)]), Upsert(0)), RemoveJob(0)), DeleteOld(0))
      ensures row.Some? && row.value.file == file && expiresAt == now + 7 * 86_400_000
    {
      RowReplaced(Seen(), file);
      hide Next;
      var existing := UpsertUploadedReport(file, now + LINK_TTL);
      var oldJobId :=
        if existing.Some? && existing.value.deleteJob.Some? then existing.value.deleteJob else row.value.deleteJob;
      if oldJobId.Some? { jobs := jobs - {oldJobId.value}; }
      if existing.Some? && existing.value.file != row.value.file { remote := remote - {existing.value.file}; }
    }

    lemma RowReplaced(s: State, file: nat)
      ensures Next(Next(Next(s.(uploads := map[0 := Uploaded(file)]), Upsert(0)), RemoveJob(0)), DeleteOld(0))
              == s.(row := Some(Row(file, if s.row.Some? then s.row.value.deleteJob else None)), jobs := JobsLeft(s),
                    remote := s.remote - (RowFile(s) - {file}), uploads := map[0 := OldDeleted(file)],
                    retired := s.retired + RowFile(s))
    {
      var s1 := s.(uploads := map[0 := Uploaded(file)]);
      RowUpserted(s1, file);
      hide Next;
      OldFileDeleted(Next(Next(s1, Upsert(0)), RemoveJob(0)), file, s.row);
    }

    /**
     `stored`, `saved`, `queued` and `recorded` say whether the remote upload, the row's transaction, the
     queue and the write of the job id succeed.
     */
    method UploadReportToCloudinary(ready: bool, stored: bool, saved: bool, queued: bool, recorded: bool, now: int)
      returns (r: Result<nat, Error>)
      modifies this
      ensures !ready || !stored ==> r.Failure? && Seen() == old(Seen())
      ensures ready && stored && !saved ==>
                r.Failure? && Seen() == Next(Next(old(Seen()), Send(0)), FailEarly(0))
      ensures ready && stored && saved ==>
                && Seen() == (if !queued then Next(Replaced(old(Seen())), FailLate(0))
                              else if !recorded then Next(Next(Replaced(old(Seen())), AddJob(0)), FailLate(0))
                              else UploadAlone(old(Seen())))
                && (r == if queued && recorded then Success(old(nextFile)) else Failure(InternalServerError))
                && expiresAt == now + 7 * 86_400_000
    {
      if !ready { return Failure(Conflict); }
      if !stored { return Failure(ServiceUnavailable); }
      SentThenFailed(Seen());
      hide Next;
      var file := nextFile;
      remote, nextFile := remote + {file}, nextFile + 1;
      if !saved {
        remote := remote - {file};
        return Failure(ServiceUnavailable);
      }
      ReplaceRow(file, now);
      Ending(Seen().(uploads := map[0 := OldDeleted(file)]), file);
      if !queued {
        remote, lost := remote - {file}, lost + {file};
        return Failure(InternalServerError);
      }
      var jobId := nextJob;
      jobs, nextJob := jobs[jobId := row.value.file], nextJob + 1;
      if !recorded {
        remote, lost := remote - {file}, lost + {file};
        return Failure(InternalServerError);
      }
      row := Some(row.value.(deleteJob := Some(jobId)));
      return Success(file);
    }

    lemma SentThenFailed(s: State)
      requires s.uploads == map[]
      ensures var sent := s.(uploads := map[0 := Uploaded(s.nextFile)], remote := s.remote + {s.nextFile}, nextFile := s.nextFile + 1);
              && Next(s, Send(0)) == sent
              && Next(sent, FailEarly(0)) == sent.(uploads := map[], remote := s.remote + {s.nextFile} - {s.nextFile})
    {
      assert map[0 := Uploaded(s.nextFile)] - {0} == map[];
    }

    /** One deletion of file `publicId`, which performs the protocol's steps for however it goes. */
    method DeleteRemoteReport(publicId: nat, how: Deletion) returns (r: Result<bool, Error>)
      modifies this`row, this`remote, this`retired, this`lost
      ensures Seen() == DeleteAlone(old(Seen()).(deletes := map[0 := Requested(publicId)]), how)
      ensures r.Success? <==> old(row).Some? && old(row).value.file == publicId && how == Deleted
      ensures r.Success? ==> row == None && publicId !in remote
    {
      DeletedState(Seen().(deletes := map[0 := Requested(publicId)]), publicId, how);
      hide DeleteAlone;
      if row.None? { return Failure(NotFound); }
      if row.value.file != publicId { return Failure(Forbidden); }
      if how.Undestroyed? { return Failure(ServiceUnavailable); }
      remote := remote - {publicId};
      if how.RowKept? {
        lost := lost + {publicId};
        return Failure(InternalServerError);
      }
      retired, row := retired + {publicId}, None;
      return Success(true);
    }

    /**
     A link is the token of one upload: it works exactly while its upload is the current one and has not
     expired, and each use is counted. The first use after expiry performs the protocol's deletion.
     */
    method AccessShareableLink(token: nat, now: int, how: Deletion) returns (r: Result<nat, Error>)
      modifies this
      ensures r.Success? <==> old(row).Some? && old(row).value.file == token && now <= old(expiresAt)
      ensures r.Success? ==> r.value == token && Seen() == old(Seen()) && downloads == old(downloads) + 1
      ensures r.Failure? ==> downloads == old(downloads)
      ensures r.Failure? ==> Seen() == if token in RowFile(old(Seen())) then DeleteAlone(Next(old(Seen()), StartAccess(0)), how)
                                       else old(Seen())
      ensures expiresAt == old(expiresAt)
    {
      hide DeleteAlone;
      if row.None? || row.value.file != token { return Failure(NotFound); }
      if now > expiresAt {
        assert Next(Seen(), StartAccess(0)) == Seen().(deletes := map[0 := Requested(token)]);
        var deleted := DeleteRemoteReport(row.value.file, how);
        return Failure(if deleted.Success? then Gone else deleted.error);
      }
      downloads := downloads + 1;
      return Success(row.value.file);
    }
  }
}
