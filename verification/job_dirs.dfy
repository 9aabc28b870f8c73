/** Which directories the search of discover_jobs.dfy finds and keeps, said in the names of directories and files
    alone. */
module JobDirs {
  import opened DiscoverJobs
  import opened JobModes
  import opened StringOrder
  import opened Wrappers

  /** Each directory after the first is listed by the one before it, under the name the path gives. */
  predicate IsWay(ds: seq<Dir>, path: Path) {
    |ds| == |path| + 1 && forall k :: 0 <= k < |path| ==> ds[k + 1] in ds[k].subdirs && ds[k + 1].name == path[k]
  }

  ghost predicate LeadsTo(d: Dir, path: Path, e: Dir) {
    exists ds :: IsWay(ds, path) && ds[0] == d && ds[|path|] == e
  }

  lemma ChildExactly(d: Dir, e: Dir)
    requires WellFormed(d)
    ensures forall name :: Child(d.subdirs, name) == Some(e) <==> e in d.subdirs && e.name == name
  {
    if e in d.subdirs {
      var i :| 0 <= i < |d.subdirs| && d.subdirs[i] == e;
      ChildIs(d.subdirs, i);
    }
  }

  lemma {:induction false} WayIsFound(ds: seq<Dir>, path: Path)
    requires IsWay(ds, path) && WellFormed(ds[0])
    ensures forall k :: 0 <= k <= |path| ==> At(ds[0], path[..k]) == Some(ds[k])
  {
    assert path[..0] == [];
    if path != [] {
      ChildExactly(ds[0], ds[1]);
      WayIsFound(ds[1..], path[1..]);
      forall k | 0 < k <= |path| ensures At(ds[0], path[..k]) == Some(ds[k]) {
        assert path[..k][1..] == path[1..][..k - 1];
        assert ds[1..][k - 1] == ds[k];
      }
    }
  }

  lemma {:induction false} FoundHasWay(d: Dir, path: Path) returns (ds: seq<Dir>)
    requires WellFormed(d) && At(d, path).Some?
    ensures IsWay(ds, path) && ds[0] == d && ds[|path|] == At(d, path).value
  {
    ds := [d];
    if path != [] {
      var child := Child(d.subdirs, path[0]).value;
      var rest := FoundHasWay(child, path[1..]);
      ds := [d] + rest;
      forall k | 0 <= k < |path| ensures ds[k + 1] in ds[k].subdirs && ds[k + 1].name == path[k] {
        assert k > 0 ==> rest[k - 1] == ds[k] && rest[k] == ds[k + 1];
      }
    }
  }

  lemma AtExactly(d: Dir, path: Path, e: Dir)
    requires WellFormed(d)
    ensures At(d, path) == Some(e) <==> LeadsTo(d, path, e)
  {
    assert path[..|path|] == path;
    if ds :| IsWay(ds, path) && ds[0] == d && ds[|path|] == e {
      WayIsFound(ds, path);
      assert At(ds[0], path[..|path|]) == Some(ds[|path|]);
    }
    if At(d, path).Some? {
      var ds := FoundHasWay(d, path);
    }
  }

  /** A job's directory by its contents. */
  predicate IsMarked(d: Dir) {
    && d.name != "server"
    && (|| "conformance-result.json" in d.files
        || "compatibility-result.json" in d.files
        || "extension-boot-result.json" in d.files
        || exists a, b :: a in d.subdirs && a.name == "conformance" && b in a.subdirs && b.name == "cases")
  }

  /** A directory named otherwise than the server's is a job's exactly when it holds one of three files or
      a directory of cases. */
  lemma JobDirExactly(d: Dir)
    requires WellFormed(d)
    ensures IsJobDir(d) <==> IsMarked(d)
  {
    TwoDown(d, CASES);
    MarkersExactly(d.files);
  }

  lemma MarkersExactly(files: seq<string>)
    ensures (exists m :: m in MARKERS && m in files) <==>
            "conformance-result.json" in files || "compatibility-result.json" in files ||
            "extension-boot-result.json" in files
  {
    assert MARKERS[0] == "conformance-result.json" && MARKERS[1] == "compatibility-result.json";
    assert MARKERS[2] == "extension-boot-result.json";
  }

  lemma TwoDown(d: Dir, path: Path)
    requires WellFormed(d) && |path| == 2
    ensures At(d, path).Some? <==>
            exists a, b :: a in d.subdirs && a.name == path[0] && b in a.subdirs && b.name == path[1]
  {
    assert path[..2] == path;
    if At(d, path).Some? {
      var ds := FoundHasWay(d, path);
      assert ds[0 + 1].name == path[0] && ds[1 + 1].name == path[1];
    }
    if a, b :| a in d.subdirs && a.name == path[0] && b in a.subdirs && b.name == path[1] {
      WayIsFound([d, a, b], path);
    }
  }

  /** What makes the last directory of a way a candidate: one to four steps down, no server's directory on the
      way, and no job's directory but the last. */
  ghost predicate IsFoundBy(ds: seq<Dir>) {
    && 2 <= |ds| <= 5
    && IsMarked(ds[|ds| - 1])
    && forall k :: 0 <= k < |ds| - 1 ==> ds[k].name != "server" && !IsMarked(ds[k])
  }

  lemma {:induction false} AllWellFormed(ds: seq<Dir>, path: Path)
    requires IsWay(ds, path) && WellFormed(ds[0])
    ensures forall k :: 0 <= k <= |path| ==> WellFormed(ds[k])
  {
    if path != [] {
      AllWellFormed(ds[1..], path[1..]);
      assert forall k :: 0 < k <= |path| ==> ds[k] == ds[1..][k - 1];
    }
  }

  lemma WayMeans(ds: seq<Dir>, path: Path)
    requires IsWay(ds, path) && WellFormed(ds[0]) && !IsMarked(ds[0])
    ensures Topmost(ds[0], path) <==> IsFoundBy(ds)
  {
    WayIsFound(ds, path);
    AllWellFormed(ds, path);
    assert path[..|path|] == path;
    forall k | 0 <= k <= |path| ensures IsJobDir(ds[k]) <==> IsMarked(ds[k]) {
      JobDirExactly(ds[k]);
    }
    forall k | 0 <= k < |path| ensures At(ds[0], path[..k]) == Some(ds[k]) {
    }
  }

  /** The candidates, by the directories on the way to them. */
  lemma FoundExactly(root: Dir, e: Entry)
    requires WellFormed(root)
    ensures e in Candidates(root) <==>
            if IsMarked(root) then e == Entry([], root)
            else exists ds :: IsWay(ds, e.path) && ds[0] == root && ds[|e.path|] == e.dir && IsFoundBy(ds)
  {
    CandidatesExactly(root, e);
    JobDirExactly(root);
    if IsMarked(root) {
      assert e == Entry(e.path, e.dir);
    } else {
      if e in Candidates(root) {
        var ds := FoundHasWay(root, e.path);
        WayMeans(ds, e.path);
      }
      if ds :| IsWay(ds, e.path) && ds[0] == root && ds[|e.path|] == e.dir && IsFoundBy(ds) {
        WayMeans(ds, e.path);
        WayIsFound(ds, e.path);
        assert e.path[..|e.path|] == e.path;
        assert At(ds[0], e.path[..|e.path|]) == Some(ds[|e.path|]);
      }
    }
  }

  /** The first name in which two paths differ decides, or the end of the shorter one. */
  lemma {:induction false} PathPrecedesExactly(p: Path, q: Path)
    ensures PathPrecedes(p, q) <==>
            exists k :: 0 <= k <= |p| && k < |q| && p[..k] == q[..k] && (k == |p| || Precedes(p[k], q[k]))
  {
    if p == [] && q != [] {
      assert p[..0] == q[..0];
    } else if p != [] && q != [] {
      PathPrecedesExactly(p[1..], q[1..]);
      if p[0] == q[0] && PathPrecedes(p[1..], q[1..]) {
        var k :| 0 <= k < |p| && k < |q| - 1 && p[1..][..k] == q[1..][..k] &&
                 (k == |p| - 1 || Precedes(p[1..][k], q[1..][k]));
        assert p[..k + 1] == [p[0]] + p[1..][..k] && q[..k + 1] == [q[0]] + q[1..][..k];
      }
      if Precedes(p[0], q[0]) {
        assert p[..0] == q[..0];
      }
      if k :| 0 <= k <= |p| && k < |q| && p[..k] == q[..k] && (k == |p| || Precedes(p[k], q[k])) {
        if k > 0 {
          assert p[..k][0] == q[..k][0];
          assert p[1..][..k - 1] == p[..k][1..] && q[1..][..k - 1] == q[..k][1..];
        }
      }
    }
  }

  /** Of the candidates of one mode, the report keeps one whose name no other's comes before; among equal names
      it keeps the one whose path comes last. */
  lemma KeptMeans(root: Dir, e: Entry, f: Entry)
    requires WellFormed(root) && Kept(Candidates(root), ModeOfEntry, e)
    requires f in Candidates(root) && f != e
    requires ModeOf(f.dir.profile, f.dir.name) == ModeOf(e.dir.profile, e.dir.name)
    ensures !Precedes(f.dir.name, e.dir.name)
    ensures f.dir.name == e.dir.name ==>
              exists k :: 0 <= k <= |f.path| && k < |e.path| && f.path[..k] == e.path[..k] &&
                          (k == |f.path| || Precedes(f.path[k], e.path[k]))
  {
    PrecedesIsStrict(f.dir.name, e.dir.name);
    PathPrecedesExactly(f.path, e.path);
  }
}
