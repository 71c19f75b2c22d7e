/** What a bidirectional synchronization reports: counters, conflicts and errors (object/sync/bisync.go). */
module BisyncRecord {
  import opened Wrappers
  import opened SyncModel
  import opened BisyncModel
  import opened BisyncCounts

  datatype ConflictEntry = ConflictEntry(path: string, file1: FileInfo, file2: FileInfo, resolved: bool)

  datatype BisyncResult = BisyncResult(
    copiedToPath2: nat,
    copiedToPath1: nat,
    updatedInPath2: nat,
    updatedInPath1: nat,
    conflicts: seq<ConflictEntry>,
    skipped: nat,
    errors: seq<FileError>,
    bytes: nat)

  function Reading(r: BisyncResult, m: Meter): nat {
    match m
    case CopiedTo2 => r.copiedToPath2
    case CopiedTo1 => r.copiedToPath1
    case UpdatedIn2 => r.updatedInPath2
    case UpdatedIn1 => r.updatedInPath1
    case Transferred => r.bytes
  }

  ghost predicate CountsPaths(o: BisyncOptions, s: Sides, r: BisyncResult, paths: set<string>) {
    forall m :: Reading(r, m) == Total(o, s, paths, m)
  }

  /** The kind of error an action reports. */
  function OpOf(a: Action): string {
    match a
    case ToPath2(_) => "copy-to-path2"
    case ToPath1(_) => "copy-to-path1"
    case Conflict(_, _) => "conflict"
  }

  /** How many errors are failed one-sided copies. */
  function CopyErrorCount(errors: seq<FileError>): nat {
    if errors == [] then 0
    else CopyErrorCount(errors[..|errors| - 1]) + if errors[|errors| - 1].op != "conflict" then 1 else 0
  }

  /**
   Whether errors stopped the run: the limit is looked at only after a failed one-sided copy, so it is the last
   error, and failed conflicts never stop a run.
   */
  predicate LimitHit(o: BisyncOptions, errors: seq<FileError>) {
    o.maxErrors > 0 && |errors| >= o.maxErrors && errors != [] && errors[|errors| - 1].op != "conflict"
  }

  /** The run stopped at the first error that reached the limit: a failed one-sided copy before the last error was below it. */
  ghost predicate StoppedInTime(o: BisyncOptions, errors: seq<FileError>) {
    o.maxErrors > 0 ==> forall k | 0 <= k < |errors| - 1 && errors[k].op != "conflict" :: k + 1 < o.maxErrors
  }

  lemma InTimeOneMore(o: BisyncOptions, errors: seq<FileError>, errors': seq<FileError>)
    requires StoppedInTime(o, errors) && !LimitHit(o, errors) && errors <= errors' && |errors'| <= |errors| + 1
    ensures StoppedInTime(o, errors')
  {
  }

  /** However many conflicts fail, as under the strategy that reports them all, they do not stop a run. */
  lemma ConflictErrorsNeverStop(o: BisyncOptions, s: Sides, errors: seq<FileError>)
    requires forall i | 0 <= i < |errors| :: ErrorFits(o, s, errors[i]) && Conflicts(o, s, errors[i].path)
    ensures !LimitHit(o, errors) && CopyErrorCount(errors) == 0
  {
    if errors != [] {
      assert ErrorFits(o, s, errors[|errors| - 1]);
      ConflictErrorsNeverStop(o, s, errors[..|errors| - 1]);
    }
  }

  function FailedPaths(errors: seq<FileError>): set<string> {
    set i | 0 <= i < |errors| :: errors[i].path
  }

  function ConflictPaths(conflicts: seq<ConflictEntry>): set<string> {
    set i | 0 <= i < |conflicts| :: conflicts[i].path
  }

  function ConflictsAmong(o: BisyncOptions, s: Sides, paths: set<string>): set<string> {
    set p | p in paths && Conflicts(o, s, p)
  }

  /** One more action on record: its weight in every counter or one error, and its conflict if it is one. */
  ghost predicate Records(o: BisyncOptions, s: Sides, r: BisyncResult, r': BisyncResult, a: Action) {
    var p := a.file.path;
    && r'.skipped == r.skipped
    && (if r'.errors == r.errors then forall m :: Reading(r', m) == Reading(r, m) + Weight(o, s, p, m)
        else r'.errors == r.errors + [FileError(p, OpOf(a))] && forall m :: Reading(r', m) == Reading(r, m))
    && r'.conflicts == if a.Conflict? then r.conflicts + [ConflictEntry(p, a.file, a.other, r'.errors == r.errors)] else r.conflicts
  }

  lemma RecordsGrow(o: BisyncOptions, s: Sides, r: BisyncResult, r': BisyncResult, a: Action)
    requires Records(o, s, r, r', a)
    ensures r'.skipped == r.skipped && r.errors <= r'.errors && |r'.errors| <= |r.errors| + 1
    ensures !LimitHit(o, r.errors) ==>
              (LimitHit(o, r'.errors) <==>
               r'.errors != r.errors && !a.Conflict? && o.maxErrors > 0 && |r'.errors| >= o.maxErrors)
  {
  }

  /**
   The record after the actions for `done`: the counters are the sums over the paths without an error; the
   conflicts are those of `done`, each once, with both files, and resolved unless there is an error; every error is of
   an action of `done`, at most one each; and all actions are accounted for.
   */
  ghost predicate Tallied(o: BisyncOptions, s: Sides, r: BisyncResult, done: set<string>) {
    && CountsPaths(o, s, r, done - FailedPaths(r.errors))
    && ConflictsListed(o, s, r, done)
    && ErrorsListed(o, s, r, done)
    && r.copiedToPath1 + r.copiedToPath2 + |r.conflicts| + CopyErrorCount(r.errors) == |done|
  }

  ghost predicate ConflictsListed(o: BisyncOptions, s: Sides, r: BisyncResult, done: set<string>) {
    && ConflictPaths(r.conflicts) == ConflictsAmong(o, s, done) && |r.conflicts| == |ConflictsAmong(o, s, done)|
    && forall i | 0 <= i < |r.conflicts| :: ConflictFits(o, s, r.conflicts[i], FailedPaths(r.errors))
  }

  predicate ConflictFits(o: BisyncOptions, s: Sides, c: ConflictEntry, failed: set<string>) {
    ActionFor(o, s, c.path) == Some(Conflict(c.file1, c.file2)) && (c.resolved <==> c.path !in failed)
  }

  ghost predicate ErrorsListed(o: BisyncOptions, s: Sides, r: BisyncResult, done: set<string>) {
    && FailedPaths(r.errors) <= done && |FailedPaths(r.errors)| == |r.errors|
    && forall i | 0 <= i < |r.errors| :: ErrorFits(o, s, r.errors[i])
  }

  predicate ErrorFits(o: BisyncOptions, s: Sides, e: FileError) {
    Acts(o, s, e.path) && e.op == OpOf(ActionFor(o, s, e.path).value)
  }

  lemma ErrorAppended(errors: seq<FileError>, e: FileError)
    ensures FailedPaths(errors + [e]) == FailedPaths(errors) + {e.path}
    ensures CopyErrorCount(errors + [e]) == CopyErrorCount(errors) + if e.op != "conflict" then 1 else 0
  {
    var more := errors + [e];
    assert more[..|errors|] == errors && more[|errors|] == e;
    forall p
      ensures p in FailedPaths(more) <==> p in FailedPaths(errors) || p == e.path
    {
      if p in FailedPaths(errors) {
        var i :| 0 <= i < |errors| && errors[i].path == p;
        assert more[i].path == p;
      }
    }
  }

  lemma ConflictAppended(conflicts: seq<ConflictEntry>, c: ConflictEntry)
    ensures ConflictPaths(conflicts + [c]) == ConflictPaths(conflicts) + {c.path}
  {
    var more := conflicts + [c];
    assert more[|conflicts|] == c;
    forall p
      ensures p in ConflictPaths(more) <==> p in ConflictPaths(conflicts) || p == c.path
    {
      if p in ConflictPaths(conflicts) {
        var i :| 0 <= i < |conflicts| && conflicts[i].path == p;
        assert more[i].path == p;
      }
    }
  }

  lemma ConflictsAmongOneMore(o: BisyncOptions, s: Sides, done: set<string>, p: string)
    requires p !in done
    ensures ConflictsAmong(o, s, done + {p}) == ConflictsAmong(o, s, done) + if Conflicts(o, s, p) then {p} else {}
    ensures |ConflictsAmong(o, s, done + {p})| == |ConflictsAmong(o, s, done)| + if Conflicts(o, s, p) then 1 else 0
  {
    assert ConflictsAmong(o, s, done + {p}) == ConflictsAmong(o, s, done) + if Conflicts(o, s, p) then {p} else {};
  }

  /** One action moves one of the counted kinds by one. */
  lemma OneRecorded(o: BisyncOptions, s: Sides, r: BisyncResult, r': BisyncResult, a: Action)
    requires Records(o, s, r, r', a) && ActionFor(o, s, a.file.path) == Some(a)
    ensures r'.copiedToPath1 + r'.copiedToPath2 + |r'.conflicts| + CopyErrorCount(r'.errors) ==
            r.copiedToPath1 + r.copiedToPath2 + |r.conflicts| + CopyErrorCount(r.errors) + 1
  {
    var p := a.file.path;
    ErrorAppended(r.errors, FileError(p, OpOf(a)));
    assert Reading(r', CopiedTo1) == r'.copiedToPath1 && Reading(r', CopiedTo2) == r'.copiedToPath2;
    assert Reading(r, CopiedTo1) == r.copiedToPath1 && Reading(r, CopiedTo2) == r.copiedToPath2;
  }

  /** An error at another path changes no entry. */
  lemma EntriesKept(o: BisyncOptions, s: Sides, conflicts: seq<ConflictEntry>, failed: set<string>, failed': set<string>, p: string)
    requires p !in ConflictPaths(conflicts) && (failed' == failed || failed' == failed + {p})
    requires forall i | 0 <= i < |conflicts| :: ConflictFits(o, s, conflicts[i], failed)
    ensures forall i | 0 <= i < |conflicts| :: ConflictFits(o, s, conflicts[i], failed')
  {
    forall i | 0 <= i < |conflicts|
      ensures ConflictFits(o, s, conflicts[i], failed')
    {
      assert conflicts[i].path in ConflictPaths(conflicts);
    }
  }

  lemma ConflictsOneMore(o: BisyncOptions, s: Sides, r: BisyncResult, r': BisyncResult, done: set<string>, a: Action)
    requires ConflictsListed(o, s, r, done) && FailedPaths(r.errors) <= done && a.file.path !in done
    requires Records(o, s, r, r', a) && ActionFor(o, s, a.file.path) == Some(a)
    ensures ConflictsListed(o, s, r', done + {a.file.path})
  {
    var p := a.file.path;
    ConflictsAmongOneMore(o, s, done, p);
    ErrorAppended(r.errors, FileError(p, OpOf(a)));
    EntriesKept(o, s, r.conflicts, FailedPaths(r.errors), FailedPaths(r'.errors), p);
    if a.Conflict? {
      EntryAppended(o, s, r.conflicts, ConflictEntry(p, a.file, a.other, r'.errors == r.errors), FailedPaths(r'.errors));
    }
  }

  lemma EntryAppended(o: BisyncOptions, s: Sides, conflicts: seq<ConflictEntry>, c: ConflictEntry, failed: set<string>)
    requires ConflictFits(o, s, c, failed) && forall i | 0 <= i < |conflicts| :: ConflictFits(o, s, conflicts[i], failed)
    ensures ConflictPaths(conflicts + [c]) == ConflictPaths(conflicts) + {c.path}
    ensures forall i | 0 <= i < |conflicts + [c]| :: ConflictFits(o, s, (conflicts + [c])[i], failed)
  {
    ConflictAppended(conflicts, c);
  }

  lemma ErrorsOneMore(o: BisyncOptions, s: Sides, r: BisyncResult, r': BisyncResult, done: set<string>, a: Action)
    requires ErrorsListed(o, s, r, done) && a.file.path !in done
    requires Records(o, s, r, r', a) && ActionFor(o, s, a.file.path) == Some(a)
    ensures ErrorsListed(o, s, r', done + {a.file.path})
    ensures FailedPaths(r'.errors) == FailedPaths(r.errors) + if r'.errors == r.errors then {} else {a.file.path}
  {
    if r'.errors != r.errors {
      OneErrorMore(o, s, r.errors, done, FileError(a.file.path, OpOf(a)));
    }
  }

  lemma OneErrorMore(o: BisyncOptions, s: Sides, errors: seq<FileError>, done: set<string>, e: FileError)
    requires FailedPaths(errors) <= done && |FailedPaths(errors)| == |errors| && e.path !in done
    requires ErrorFits(o, s, e) && forall i | 0 <= i < |errors| :: ErrorFits(o, s, errors[i])
    ensures FailedPaths(errors + [e]) == FailedPaths(errors) + {e.path}
    ensures |FailedPaths(errors + [e])| == |errors| + 1
    ensures forall i | 0 <= i < |errors + [e]| :: ErrorFits(o, s, (errors + [e])[i])
  {
    ErrorAppended(errors, e);
  }

  lemma CountsOneMore(o: BisyncOptions, s: Sides, r: BisyncResult, r': BisyncResult, done: set<string>, failed: set<string>,
                      failed': set<string>, a: Action)
    requires CountsPaths(o, s, r, done - failed) && failed <= done && a.file.path !in done && Records(o, s, r, r', a)
    requires failed' == failed + if r'.errors == r.errors then {} else {a.file.path}
    ensures CountsPaths(o, s, r', done + {a.file.path} - failed')
  {
    var p := a.file.path;
    if r'.errors == r.errors {
      TotalsWith(o, s, done - failed, p);
      assert done + {p} - failed' == done - failed + {p};
    } else {
      assert done + {p} - failed' == done - failed;
    }
  }

  lemma TalliedOneMore(o: BisyncOptions, s: Sides, r: BisyncResult, r': BisyncResult, done: set<string>, a: Action)
    requires Tallied(o, s, r, done) && a.file.path !in done
    requires Records(o, s, r, r', a) && ActionFor(o, s, a.file.path) == Some(a)
    ensures Tallied(o, s, r', done + {a.file.path})
  {
    OneRecorded(o, s, r, r', a);
    ConflictsOneMore(o, s, r, r', done, a);
    ErrorsOneMore(o, s, r, r', done, a);
    CountsOneMore(o, s, r, r', done, FailedPaths(r.errors), FailedPaths(r'.errors), a);
  }

  lemma TalliedAtFirst(o: BisyncOptions, s: Sides, r: BisyncResult)
    requires r == BisyncResult(0, 0, 0, 0, [], r.skipped, [], 0)
    ensures Tallied(o, s, r, {})
  {
    assert ConflictsAmong(o, s, {}) == {};
  }
}
