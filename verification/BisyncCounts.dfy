/** The counters of a bidirectional synchronization as sums over paths (object/sync/bisync.go). */
module BisyncCounts {
  import opened Wrappers
  import opened BisyncModel

  datatype Meter = CopiedTo2 | CopiedTo1 | UpdatedIn2 | UpdatedIn1 | Transferred

  /** What a path adds to a counter in a run without errors. */
  function Weight(o: BisyncOptions, s: Sides, p: string, m: Meter): nat {
    match ActionFor(o, s, p)
    case None => 0
    case Some(ToPath2(f)) => if m.CopiedTo2? then 1 else if m.Transferred? then f.size else 0
    case Some(ToPath1(f)) => if m.CopiedTo1? then 1 else if m.Transferred? then f.size else 0
    case Some(Conflict(f1, f2)) =>
      var d := DirectionFor(o, s, p);
      if o.dryRun then 0
      else
        match m
        case UpdatedIn1 => if d.To1? || d.Both? then 1 else 0
        case UpdatedIn2 => if d.To2? || d.Both? then 1 else 0
        case Transferred => (if d.To1? || d.Both? then f2.size else 0) + if d.To2? || d.Both? then f1.size else 0
        case _ => 0
  }

  ghost function Total(o: BisyncOptions, s: Sides, paths: set<string>, m: Meter): nat {
    if paths == {} then 0
    else
      var p :| p in paths;
      Weight(o, s, p, m) + Total(o, s, paths - {p}, m)
  }

  lemma {:induction false} TotalWith(o: BisyncOptions, s: Sides, paths: set<string>, m: Meter, p: string)
    requires p in paths
    ensures Total(o, s, paths, m) == Weight(o, s, p, m) + Total(o, s, paths - {p}, m)
    decreases |paths|
  {
    var q :| q in paths && Total(o, s, paths, m) == Weight(o, s, q, m) + Total(o, s, paths - {q}, m);
    if p != q {
      TotalWith(o, s, paths - {q}, m, p);
      TotalWith(o, s, paths - {p}, m, q);
      assert paths - {q} - {p} == paths - {p} - {q};
    }
  }

  lemma TotalsWith(o: BisyncOptions, s: Sides, paths: set<string>, p: string)
    requires p !in paths
    ensures forall m :: Total(o, s, paths + {p}, m) == Total(o, s, paths, m) + Weight(o, s, p, m)
  {
    forall m
      ensures Total(o, s, paths + {p}, m) == Total(o, s, paths, m) + Weight(o, s, p, m)
    {
      TotalWith(o, s, paths + {p}, m, p);
      assert paths + {p} - {p} == paths;
    }
  }

  function Counted(o: BisyncOptions, s: Sides, paths: set<string>, m: Meter): set<string> {
    set p | p in paths && Weight(o, s, p, m) == 1
  }

  lemma CountedWith(o: BisyncOptions, s: Sides, paths: set<string>, m: Meter, p: string)
    requires p in paths
    ensures |Counted(o, s, paths, m)| == |Counted(o, s, paths - {p}, m)| + if Weight(o, s, p, m) == 1 then 1 else 0
  {
    var rest := Counted(o, s, paths - {p}, m);
    assert Counted(o, s, paths, m) == if Weight(o, s, p, m) == 1 then rest + {p} else rest;
  }

  /** All counters but the bytes count paths. */
  lemma {:induction false} TotalCounts(o: BisyncOptions, s: Sides, paths: set<string>, m: Meter)
    requires !m.Transferred?
    ensures Total(o, s, paths, m) == |Counted(o, s, paths, m)|
    decreases |paths|
  {
    if paths != {} {
      var p :| p in paths;
      TotalWith(o, s, paths, m, p);
      TotalCounts(o, s, paths - {p}, m);
      CountedWith(o, s, paths, m, p);
    }
  }
}
