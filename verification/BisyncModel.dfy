/**
 Bidirectional synchronization (object/sync/bisync.go): options, the action a path calls for, and the final
 content a path should have, as functions of the two initial trees.
 */
module BisyncModel {
  import opened Wrappers
  import opened SyncModel

  datatype Strategy = NewerWins | LargerWins | SourceWins | DestWins | KeepBoth | Skip | Report | Unknown

  datatype BisyncOptions = BisyncOptions(
    strategy: Strategy,
    conflictSuffix: string,
    dryRun: bool,
    checksum: bool,
    deleteMissing: bool,
    maxErrors: int,
    filter: Option<(string, nat, Time) -> bool>,
    timeEqual: (Time, Time) -> bool)

  const DEFAULT_SUFFIX: string := ".conflict"

  function Suffix(o: BisyncOptions): (r: string)
    ensures |r| > 0
  {
    if o.conflictSuffix == "" then DEFAULT_SUFFIX else o.conflictSuffix
  }

  function ConflictPath(o: BisyncOptions, p: string): string {
    p + Suffix(o)
  }

  /** Both sides are scanned and compared with these options. */
  function SyncOptions(o: BisyncOptions): Options {
    Options(false, false, o.checksum, false, false, false, false, 0, 0, o.filter, o.timeEqual)
  }

  datatype Sides = Sides(one: Tree, two: Tree)

  function InfoOf(o: BisyncOptions, tree: Tree, p: string): FileInfo
    requires p in tree
  {
    Info(p, tree[p], SyncOptions(o))
  }

  /** A file the scan of a side reports. */
  predicate Seen(o: BisyncOptions, tree: Tree, p: string) {
    p in tree && !tree[p].isDir && Accepted(InfoOf(o, tree, p), SyncOptions(o))
  }

  datatype Action =
    | ToPath2(file: FileInfo)
    | ToPath1(file: FileInfo)
    | Conflict(file: FileInfo, other: FileInfo)

  predicate Differ(o: BisyncOptions, f1: FileInfo, f2: FileInfo) {
    NeedsUpdate(f1, f2, SyncOptions(o)) || NeedsUpdate(f2, f1, SyncOptions(o))
  }

  function ActionFor(o: BisyncOptions, s: Sides, p: string): Option<Action> {
    if Seen(o, s.one, p) then
      var f1 := InfoOf(o, s.one, p);
      if Seen(o, s.two, p) then
        var f2 := InfoOf(o, s.two, p);
        if Differ(o, f1, f2) then Some(Conflict(f1, f2)) else None
      else Some(ToPath2(f1))
    else if Seen(o, s.two, p) then Some(ToPath1(InfoOf(o, s.two, p)))
    else None
  }

  predicate Acts(o: BisyncOptions, s: Sides, p: string) {
    ActionFor(o, s, p).Some?
  }

  predicate Conflicts(o: BisyncOptions, s: Sides, p: string) {
    Acts(o, s, p) && ActionFor(o, s, p).value.Conflict?
  }

  /** Which version of a conflicting file a strategy favours.  On equal times or sizes it is the second. */
  predicate FirstWins(o: BisyncOptions, f1: FileInfo, f2: FileInfo) {
    match o.strategy
    case NewerWins => f1.modTime > f2.modTime
    case LargerWins => f1.size > f2.size
    case SourceWins => true
    case DestWins => false
    case KeepBoth => f1.modTime >= f2.modTime
    case _ => false
  }

  predicate Resolves(o: BisyncOptions) {
    !o.strategy.Skip? && !o.strategy.Report? && !o.strategy.Unknown?
  }

  /** The version of `p` that is kept on both sides comes from side one. */
  predicate FromOne(o: BisyncOptions, s: Sides, p: string) {
    match ActionFor(o, s, p)
    case Some(ToPath2(_)) => true
    case Some(Conflict(f1, f2)) => Resolves(o) && FirstWins(o, f1, f2)
    case _ => false
  }

  predicate FromTwo(o: BisyncOptions, s: Sides, p: string) {
    match ActionFor(o, s, p)
    case Some(ToPath1(_)) => true
    case Some(Conflict(f1, f2)) => Resolves(o) && !FirstWins(o, f1, f2)
    case _ => false
  }

  /** Under KeepBoth, `p` is the path for the older version of the conflicting file `q`. */
  predicate Saves(o: BisyncOptions, s: Sides, p: string, q: string) {
    o.strategy.KeepBoth? && Conflicts(o, s, q) && p == ConflictPath(o, q)
  }

  predicate IsSave(o: BisyncOptions, s: Sides, p: string) {
    |p| >= |Suffix(o)| && Saves(o, s, p, p[..|p| - |Suffix(o)|])
  }

  lemma SavedBy(o: BisyncOptions, s: Sides, p: string, q: string)
    requires Saves(o, s, p, q)
    ensures IsSave(o, s, p) && p[..|p| - |Suffix(o)|] == q
  {
  }

  /** The bytes of the older version. */
  function LoserBytes(o: BisyncOptions, s: Sides, q: string): Bytes
    requires Conflicts(o, s, q)
  {
    if FromOne(o, s, q) then s.two[q].data else s.one[q].data
  }

  /** No conflict path is itself the path of an action. */
  ghost predicate Apart(o: BisyncOptions, s: Sides) {
    forall p | IsSave(o, s, p) :: !Acts(o, s, p)
  }

  /** No conflict path is in use. */
  ghost predicate NoCollision(o: BisyncOptions, s: Sides) {
    forall p | IsSave(o, s, p) :: p !in s.one && p !in s.two
  }

  /** The final content of a path: as it was, or these bytes. */
  datatype Want = Unchanged | Holds(data: Bytes)

  function WantOne(o: BisyncOptions, s: Sides, p: string): Want {
    if FromTwo(o, s, p) then Holds(s.two[p].data)
    else if IsSave(o, s, p) then Holds(LoserBytes(o, s, p[..|p| - |Suffix(o)|]))
    else Unchanged
  }

  function WantTwo(o: BisyncOptions, s: Sides, p: string): Want {
    if FromOne(o, s, p) then Holds(s.one[p].data)
    else if IsSave(o, s, p) then Holds(LoserBytes(o, s, p[..|p| - |Suffix(o)|]))
    else Unchanged
  }

  ghost predicate Meets(want: Want, before: Tree, after: Tree, p: string) {
    match want
    case Unchanged => Same(after, before, p)
    case Holds(data) => HasBytes(after, p, data)
  }

  /** The two trees an error-free run must end in. */
  ghost predicate Merged(o: BisyncOptions, s: Sides, s': Sides) {
    forall p ::
      && Meets(WantOne(o, s, p), s.one, s'.one, p)
      && Meets(WantTwo(o, s, p), s.two, s'.two, p)
  }

  /** At any moment: a path that is to stay as it is on a side still does. */
  ghost predicate Intact(o: BisyncOptions, s: Sides, s': Sides) {
    forall p ::
      && (WantOne(o, s, p).Unchanged? ==> Same(s'.one, s.one, p))
      && (WantTwo(o, s, p).Unchanged? ==> Same(s'.two, s.two, p))
  }

  /** At any moment: the older version of `q` is on its side, in place or under its conflict path. */
  ghost predicate LoserKept(o: BisyncOptions, s: Sides, s': Sides, q: string)
    requires Conflicts(o, s, q)
  {
    var side := if FromOne(o, s, q) then s'.two else s'.one;
    HasBytes(side, q, LoserBytes(o, s, q)) || HasBytes(side, ConflictPath(o, q), LoserBytes(o, s, q))
  }

  ghost predicate LosersKept(o: BisyncOptions, s: Sides, s': Sides) {
    o.strategy.KeepBoth? ==> forall q | Conflicts(o, s, q) :: LoserKept(o, s, s', q)
  }

  ghost predicate Safe(o: BisyncOptions, s: Sides, s': Sides) {
    Intact(o, s, s') && LosersKept(o, s, s')
  }

  /** Which side a resolution has updated. */
  datatype Direction = To1 | To2 | Both | Neither

  function DirectionFor(o: BisyncOptions, s: Sides, p: string): Direction {
    if !Conflicts(o, s, p) || !Resolves(o) then Neither
    else if o.strategy.KeepBoth? then Both
    else if FromOne(o, s, p) then To2
    else To1
  }
}
