/** Finding the job directories of a run's artifacts (discover_jobs of build_diagnostics_report.py). */
module DiscoverJobs {
  import opened Concatenation
  import opened JobModes
  import opened StableSort
  import opened StringOrder
  import opened Wrappers

  /** A directory with the names of its files, its subdirectories, and the profile its compatibility result
      records, empty if there is none. */
  datatype Dir = Dir(name: string, files: seq<string>, subdirs: seq<Dir>, profile: string)

  /** The names on the way from the root of the search. */
  type Path = seq<string>

  /** A directory and the path it was met at. */
  datatype Entry = Entry(path: Path, dir: Dir)

  /** Every directory lists its subdirectories by name, without duplicates. */
  predicate WellFormed(d: Dir) {
    && (forall i, j :: 0 <= i < j < |d.subdirs| ==> Precedes(d.subdirs[i].name, d.subdirs[j].name))
    && forall i :: 0 <= i < |d.subdirs| ==> WellFormed(d.subdirs[i])
  }

  const SERVER := "server"
  const MARKERS := ["conformance-result.json", "compatibility-result.json", "extension-boot-result.json"]
  const CASES: Path := ["conformance", "cases"]
  const MAX_DEPTH := 4

  /** The directory that a path leads to. */
  function At(d: Dir, path: Path): Option<Dir>
    decreases |path|
  {
    if path == [] then Some(d)
    else
      match Child(d.subdirs, path[0])
      case None => None
      case Some(child) => At(child, path[1..])
  }

  function Child(ds: seq<Dir>, name: string): (r: Option<Dir>)
    ensures r.Some? ==> r.value in ds && r.value.name == name
    ensures r.None? ==> forall d :: d in ds ==> d.name != name
  {
    if ds == [] then None
    else if ds[0].name == name then Some(ds[0])
    else Child(ds[1..], name)
  }

  /** A result marker or a tree of cases makes a job directory; a server's directory is none. */
  predicate IsJobDir(d: Dir) {
    d.name != SERVER && ((exists m :: m in MARKERS && m in d.files) || At(d, CASES).Some?)
  }

  // ----- what the search is to find -----

  /** A directory the search looks below: no server's directory and, unless it is the root, no job directory. */
  predicate IsPassedThrough(d: Dir, depth: nat) {
    d.name != SERVER && (depth == 0 || !IsJobDir(d))
  }

  /** Every directory above the one that rel leads to is looked below; the first one is at the given depth. */
  predicate OnTheWay(d: Dir, depth: nat, rel: Path) {
    forall k :: 0 <= k < |rel| ==> At(d, rel[..k]).Some? && IsPassedThrough(At(d, rel[..k]).value, depth + k)
  }

  /** A job directory at most four levels down that lies in no other and below no server's directory. */
  predicate Topmost(root: Dir, path: Path) {
    && 0 < |path| <= MAX_DEPTH
    && At(root, path).Some? && IsJobDir(At(root, path).value)
    && OnTheWay(root, 0, path)
  }

  /** The root alone when it is a job directory, otherwise the topmost job directories. */
  predicate IsCandidate(root: Dir, e: Entry) {
    At(root, e.path) == Some(e.dir) &&
    if IsJobDir(root) then e.path == [] else Topmost(root, e.path)
  }

  // ----- the order in which the search meets them -----

  function Below(e: Entry): seq<Entry>
    decreases e.dir, 0
  {
    if |e.path| > MAX_DEPTH || e.dir.name == SERVER then []
    else if e.path != [] && IsJobDir(e.dir) then [e]
    else BelowAll(e.path, e.dir.subdirs)
  }

  /** The last subdirectory comes off the stack first. */
  function BelowAll(path: Path, ds: seq<Dir>): seq<Entry>
    decreases ds, 1
  {
    if ds == [] then []
    else
      var n := |ds| - 1;
      Below(Entry(path + [ds[n].name], ds[n])) + BelowAll(path, ds[..n])
  }

  function Candidates(root: Dir): seq<Entry> {
    if IsJobDir(root) then [Entry([], root)] else Below(Entry([], root))
  }

  /** What the entries on the stack still lead to, the top one first. */
  function Pending(stack: seq<Entry>): seq<Entry> {
    if stack == [] then [] else Below(stack[|stack| - 1]) + Pending(stack[..|stack| - 1])
  }

  function Children(path: Path, ds: seq<Dir>): seq<Entry> {
    seq(|ds|, i requires 0 <= i < |ds| => Entry(path + [ds[i].name], ds[i]))
  }

  lemma ChildrenPop(base: seq<Entry>, path: Path, ds: seq<Dir>)
    requires ds != []
    ensures var stack, n := base + Children(path, ds), |ds| - 1;
            && stack[|stack| - 1] == Entry(path + [ds[n].name], ds[n])
            && stack[..|stack| - 1] == base + Children(path, ds[..n])
  {
  }

  lemma {:induction false} PendingChildren(base: seq<Entry>, path: Path, ds: seq<Dir>)
    ensures Pending(base + Children(path, ds)) == BelowAll(path, ds) + Pending(base)
  {
    var stack := base + Children(path, ds);
    if ds == [] {
      assert stack == base;
    } else {
      var n := |ds| - 1;
      ChildrenPop(base, path, ds);
      PendingChildren(base, path, ds[..n]);
      Regroup(Below(Entry(path + [ds[n].name], ds[n])), BelowAll(path, ds[..n]), Pending(base));
    }
  }

  // ----- the search -----

  /** No entry lies in another's directory. */
  predicate Apart(stack: seq<Entry>) {
    forall i, j :: 0 <= i < j < |stack| ==> !(stack[i].path <= stack[j].path) && !(stack[j].path <= stack[i].path)
  }

  /** Nothing seen lies in an entry's directory. */
  predicate Unseen(stack: seq<Entry>, seen: set<Path>) {
    forall i, q :: 0 <= i < |stack| && q in seen ==> !(stack[i].path <= q)
  }

  function Size(d: Dir): (n: nat)
    ensures n > 0
    decreases d, 0
  {
    1 + SizeAll(d.subdirs)
  }

  function SizeAll(ds: seq<Dir>): nat
    decreases ds, 1
  {
    if ds == [] then 0 else Size(ds[|ds| - 1]) + SizeAll(ds[..|ds| - 1])
  }

  function Weight(stack: seq<Entry>): nat {
    if stack == [] then 0 else Size(stack[|stack| - 1].dir) + Weight(stack[..|stack| - 1])
  }

  lemma {:induction false} WeightOfChildren(base: seq<Entry>, path: Path, ds: seq<Dir>)
    ensures Weight(base + Children(path, ds)) == SizeAll(ds) + Weight(base)
  {
    var stack := base + Children(path, ds);
    if ds == [] {
      assert stack == base;
    } else {
      var n := |ds| - 1;
      ChildrenPop(base, path, ds);
      WeightOfChildren(base, path, ds[..n]);
    }
  }

  /** What the loop keeps of its stack and of the paths it has seen. */
  predicate Steady(stack: seq<Entry>, seen: set<Path>) {
    Apart(stack) && Unseen(stack, seen) && forall i :: 0 <= i < |stack| ==> WellFormed(stack[i].dir)
  }

  /** The top entry is new, and neither leaving nor entering it changes what the loop keeps. */
  lemma TopIsNew(base: seq<Entry>, top: Entry, seen: set<Path>)
    requires Steady(base + [top], seen)
    ensures top.path !in seen
    ensures Steady(base, seen) && Steady(base, seen + {top.path})
    ensures Steady(base + Children(top.path, top.dir.subdirs), seen + {top.path})
  {
    var before, below := base + [top], Children(top.path, top.dir.subdirs);
    assert before[|base|] == top;
    GoingDown(base, top, seen);
    forall i | 0 <= i < |base| ensures WellFormed(base[i].dir) {
      assert before[i] == base[i];
    }
    SteadyBase(base, [top], seen);
    SteadyBase(base, below, seen + {top.path});
  }

  lemma SteadyBase(base: seq<Entry>, more: seq<Entry>, seen: set<Path>)
    requires Steady(base + more, seen)
    ensures Steady(base, seen)
  {
    forall i | 0 <= i < |base| ensures base[i] == (base + more)[i] {
    }
  }

  /** Going down from the top entry keeps the stack's entries apart and unseen. */
  lemma GoingDown(base: seq<Entry>, top: Entry, seen: set<Path>)
    requires Steady(base + [top], seen) && WellFormed(top.dir)
    ensures Steady(base + Children(top.path, top.dir.subdirs), seen + {top.path})
  {
    var before := base + [top];
    var below := Children(top.path, top.dir.subdirs);
    var stack := base + below;
    assert before[|base|] == top;
    forall i | 0 <= i < |base| ensures !(base[i].path <= top.path) && !(top.path <= base[i].path) {
      assert before[i] == base[i];
    }
    forall i, j | 0 <= i < j < |stack|
      ensures !(stack[i].path <= stack[j].path) && !(stack[j].path <= stack[i].path)
    {
      if j < |base| {
        assert before[i] == stack[i] && before[j] == stack[j];
      } else if i < |base| {
        ExtendedApart(base[i].path, top.path, top.dir.subdirs[j - |base|].name);
      } else {
        SiblingsApart(top, i - |base|, j - |base|);
      }
    }
    forall i, q | 0 <= i < |stack| && q in seen + {top.path} ensures !(stack[i].path <= q) {
      if i < |base| {
        assert before[i] == stack[i];
      } else {
        assert top.path <= stack[i].path;
      }
    }
    forall i | 0 <= i < |stack| ensures WellFormed(stack[i].dir) {
      if i < |base| {
        assert before[i] == stack[i];
      }
    }
  }

  lemma ExtendedApart(p: Path, q: Path, name: string)
    requires !(p <= q) && !(q <= p)
    ensures !(p <= q + [name]) && !(q + [name] <= p)
  {
  }

  lemma SiblingsApart(parent: Entry, i: nat, j: nat)
    requires WellFormed(parent.dir) && i < j < |parent.dir.subdirs|
    ensures var p, q := parent.path + [parent.dir.subdirs[i].name], parent.path + [parent.dir.subdirs[j].name];
            !(p <= q) && !(q <= p)
  {
    var a, b := parent.dir.subdirs[i].name, parent.dir.subdirs[j].name;
    PrecedesIsStrict(a, b);
    assert (parent.path + [a])[|parent.path|] == a && (parent.path + [b])[|parent.path|] == b;
  }

  method Push(base: seq<Entry>, path: Path, ds: seq<Dir>) returns (stack: seq<Entry>)
    ensures stack == base + Children(path, ds)
  {
    stack := base;
    for i := 0 to |ds|
      invariant stack == base + Children(path, ds[..i])
    {
      assert Children(path, ds[..i + 1]) == Children(path, ds[..i]) + [Entry(path + [ds[i].name], ds[i])];
      stack := stack + [Entry(path + [ds[i].name], ds[i])];
    }
    assert ds[..|ds|] == ds;
  }

  /** The depth kept beside each directory in the source is the length of its path. */
  method Search(root: Dir) returns (candidates: seq<Entry>)
    requires WellFormed(root)
    ensures candidates == Candidates(root)
  {
    if IsJobDir(root) {
      return [Entry([], root)];
    }
    candidates := [];
    var seen: set<Path> := {};
    var stack := [Entry([], root)];
    ghost var found := Below(Entry([], root));
    assert Pending(stack[..0]) == [];
    while stack != []
      invariant found == candidates + Pending(stack)
      invariant Steady(stack, seen)
      decreases Weight(stack)
    {
      var current := stack[|stack| - 1];
      var base := stack[..|stack| - 1];
      assert stack == base + [current];
      ghost var step, later := Below(current), Pending(base);
      assert found == candidates + (step + later);
      TopIsNew(base, current, seen);
      stack := base;
      if current.path in seen || |current.path| > MAX_DEPTH {
        NoGap(later);
        continue;
      }
      seen := seen + {current.path};
      if current.dir.name == SERVER {
        NoGap(later);
        continue;
      }
      if current.path != [] && IsJobDir(current.dir) {
        Regroup(candidates, step, later);
        candidates := candidates + [current];
        continue;
      }
      PendingChildren(base, current.path, current.dir.subdirs);
      WeightOfChildren(base, current.path, current.dir.subdirs);
      stack := Push(base, current.path, current.dir.subdirs);
    }
  }

  // ----- what the search finds -----

  predicate Listed(ds: seq<Dir>) {
    && (forall i, j :: 0 <= i < j < |ds| ==> Precedes(ds[i].name, ds[j].name))
    && forall i :: 0 <= i < |ds| ==> WellFormed(ds[i])
  }

  lemma {:induction false} ChildIs(ds: seq<Dir>, i: nat)
    requires Listed(ds) && i < |ds|
    ensures Child(ds, ds[i].name) == Some(ds[i])
  {
    if i > 0 {
      PrecedesIsStrict(ds[0].name, ds[i].name);
      ChildIs(ds[1..], i - 1);
    }
  }

  lemma ChildFromEnd(ds: seq<Dir>, name: string)
    requires Listed(ds) && ds != []
    ensures var n := |ds| - 1;
            Child(ds, name) == if ds[n].name == name then Some(ds[n]) else Child(ds[..n], name)
  {
    var n := |ds| - 1;
    var r := Child(ds[..n], name);
    if ds[n].name == name {
      ChildIs(ds, n);
    } else if r.Some? {
      var i :| 0 <= i < n && ds[..n][i] == r.value;
      ChildIs(ds, i);
    }
  }

  /** The search's own account of how it gets from d to the target. */
  predicate Reaches(d: Dir, depth: nat, rel: Path, target: Dir)
    decreases |rel|
  {
    && depth <= MAX_DEPTH && d.name != SERVER
    && if rel == [] then d == target && depth > 0 && IsJobDir(d)
       else IsPassedThrough(d, depth) && Child(d.subdirs, rel[0]).Some?
            && Reaches(Child(d.subdirs, rel[0]).value, depth + 1, rel[1..], target)
  }

  /** One of the subdirectories of the directory at path leads to f. */
  predicate Leads(path: Path, ds: seq<Dir>, f: Entry) {
    && |path| < |f.path| && path <= f.path && Child(ds, f.path[|path|]).Some?
    && Reaches(Child(ds, f.path[|path|]).value, |path| + 1, f.path[|path| + 1..], f.dir)
  }

  lemma {:induction false} BelowMembers(e: Entry, f: Entry)
    requires WellFormed(e.dir)
    ensures f in Below(e) <==> e.path <= f.path && Reaches(e.dir, |e.path|, f.path[|e.path|..], f.dir)
    decreases e.dir, 0
  {
    if IsPassedThrough(e.dir, |e.path|) && |e.path| <= MAX_DEPTH {
      BelowAllMembers(e.path, e.dir.subdirs, f);
      EnterChild(e, f);
    } else if e.path <= f.path {
      var rel := f.path[|e.path|..];
      assert rel == [] ==> f.path == e.path;
    }
  }

  lemma EnterChild(e: Entry, f: Entry)
    requires IsPassedThrough(e.dir, |e.path|) && |e.path| <= MAX_DEPTH
    ensures Leads(e.path, e.dir.subdirs, f) <==>
            e.path <= f.path && Reaches(e.dir, |e.path|, f.path[|e.path|..], f.dir)
  {
    if e.path <= f.path && |e.path| < |f.path| {
      var rel := f.path[|e.path|..];
      assert f.path[|e.path| + 1..] == rel[1..];
    }
  }

  lemma {:induction false} BelowAllMembers(path: Path, ds: seq<Dir>, f: Entry)
    requires Listed(ds)
    ensures f in BelowAll(path, ds) <==> Leads(path, ds, f)
    decreases ds, 1
  {
    if ds != [] {
      var n := |ds| - 1;
      var last := Entry(path + [ds[n].name], ds[n]);
      BelowMembers(last, f);
      BelowAllMembers(path, ds[..n], f);
      InEither(f, Below(last), BelowAll(path, ds[..n]));
      LeadsStep(path, ds, f);
    }
  }

  lemma InEither<T>(x: T, a: seq<T>, b: seq<T>)
    ensures x in a + b <==> x in a || x in b
  {
  }

  lemma LeadsStep(path: Path, ds: seq<Dir>, f: Entry)
    requires Listed(ds) && ds != []
    ensures var n := |ds| - 1;
            var p := path + [ds[n].name];
            Leads(path, ds, f) <==>
            (p <= f.path && Reaches(ds[n], |p|, f.path[|p|..], f.dir)) || Leads(path, ds[..n], f)
  {
    var n := |ds| - 1;
    if path + [ds[n].name] <= f.path {
      PrefixByName(path, ds[n].name, f.path);
      ChildFromEnd(ds, ds[n].name);
      ChildNotBefore(ds);
    } else if |path| < |f.path| && path <= f.path {
      NotPrefixByName(path, ds[n].name, f.path);
      ChildFromEnd(ds, f.path[|path|]);
    }
  }

  lemma PrefixByName(path: Path, name: string, p: Path)
    requires path + [name] <= p
    ensures path <= p && |path| < |p| && p[|path|] == name
  {
    assert (path + [name])[|path|] == name;
  }

  lemma NotPrefixByName(path: Path, name: string, p: Path)
    requires !(path + [name] <= p) && path <= p && |path| < |p|
    ensures p[|path|] != name
  {
    assert p[..|path| + 1] == path + [p[|path|]];
  }

  /** The last subdirectory's name is no other's. */
  lemma ChildNotBefore(ds: seq<Dir>)
    requires Listed(ds) && ds != []
    ensures Child(ds[..|ds| - 1], ds[|ds| - 1].name) == None
  {
    var n := |ds| - 1;
    var r := Child(ds[..n], ds[n].name);
    if r.Some? {
      var i :| 0 <= i < n && ds[..n][i] == r.value;
      PrecedesIsStrict(ds[i].name, ds[n].name);
    }
  }

  lemma {:induction false} ReachesMeans(d: Dir, depth: nat, rel: Path, target: Dir)
    ensures Reaches(d, depth, rel, target) <==>
            && At(d, rel) == Some(target) && IsJobDir(target) && 0 < depth + |rel| <= MAX_DEPTH
            && OnTheWay(d, depth, rel)
    decreases |rel|
  {
    if rel != [] {
      assert rel[..0] == [];
      var child := Child(d.subdirs, rel[0]);
      if child.Some? {
        ReachesMeans(child.value, depth + 1, rel[1..], target);
        forall k | 0 <= k < |rel| - 1 ensures At(d, rel[..k + 1]) == At(child.value, rel[1..][..k]) {
          assert rel[..k + 1][1..] == rel[1..][..k];
        }
        WayStep(d, depth, rel, child.value);
      }
    }
  }

  lemma WayStep(d: Dir, depth: nat, rel: Path, child: Dir)
    requires rel != [] && Child(d.subdirs, rel[0]) == Some(child)
    ensures OnTheWay(d, depth, rel) <==> IsPassedThrough(d, depth) && OnTheWay(child, depth + 1, rel[1..])
  {
    assert rel[..0] == [];
    forall k | 0 <= k < |rel| - 1 ensures At(d, rel[..k + 1]) == At(child, rel[1..][..k]) {
      assert rel[..k + 1][1..] == rel[1..][..k];
    }
    if IsPassedThrough(d, depth) && OnTheWay(child, depth + 1, rel[1..]) {
      forall k | 0 <= k < |rel|
        ensures At(d, rel[..k]).Some? && IsPassedThrough(At(d, rel[..k]).value, depth + k)
      {
        if k > 0 {
          assert At(d, rel[..(k - 1) + 1]) == At(child, rel[1..][..k - 1]);
        }
      }
    }
    if OnTheWay(d, depth, rel) {
      forall k | 0 <= k < |rel| - 1
        ensures At(child, rel[1..][..k]).Some? && IsPassedThrough(At(child, rel[1..][..k]).value, depth + 1 + k)
      {
        assert At(d, rel[..k + 1]) == At(child, rel[1..][..k]);
      }
    }
  }

  /** The search finds the root alone when it is a job directory, and otherwise exactly the topmost
      job directories. */
  lemma CandidatesExactly(root: Dir, e: Entry)
    requires WellFormed(root)
    ensures e in Candidates(root) <==> IsCandidate(root, e)
  {
    if IsJobDir(root) {
      assert e == Entry(e.path, e.dir);
    } else {
      var top := Entry([], root);
      BelowMembers(top, e);
      assert top.path <= e.path && |top.path| == 0 && e.path[0..] == e.path;
      ReachesMeans(root, 0, e.path, e.dir);
      assert e in Candidates(root) <==> Reaches(root, 0, e.path, e.dir);
      assert IsCandidate(root, e) <==> At(root, e.path) == Some(e.dir) && Topmost(root, e.path);
    }
  }

  lemma NothingTopmostAbove(root: Dir, path: Path, k: nat)
    requires k <= |path| && Topmost(root, path) && Topmost(root, path[..k])
    ensures k == |path|
  {
    if k < |path| {
      assert false;
    }
  }

  /** No job directory that is found lies in another one. */
  lemma NoneInside(root: Dir, e: Entry, f: Entry)
    requires WellFormed(root) && e in Candidates(root) && f in Candidates(root)
    requires e.path <= f.path
    ensures e == f
  {
    CandidatesExactly(root, e);
    CandidatesExactly(root, f);
    var k := |e.path|;
    assert f.path[..k] == e.path;
    if k == |f.path| {
      assert e.path == f.path && e == Entry(f.path, f.dir);
    } else if !IsJobDir(root) {
      NothingTopmostAbove(root, f.path, k);
    }
  }

  // ----- the order of the candidates -----

  /** Paths in the order of their names, level by level. */
  predicate PathPrecedes(p: Path, q: Path) {
    q != [] && (p == [] || Precedes(p[0], q[0]) || (p[0] == q[0] && PathPrecedes(p[1..], q[1..])))
  }

  /** The entries come in descending order of their paths. */
  predicate Descending(es: seq<Entry>) {
    forall i, j :: 0 <= i < j < |es| ==> PathPrecedes(es[j].path, es[i].path)
  }

  lemma {:induction false} SplitAt(path: Path, p: Path, q: Path)
    requires path <= p && path <= q && |path| < |p| && |path| < |q| && Precedes(p[|path|], q[|path|])
    ensures PathPrecedes(p, q)
  {
    if path != [] {
      assert p[0] == path[0] == q[0];
      SplitAt(path[1..], p[1..], q[1..]);
    }
  }

  lemma {:induction false} BelowDescends(e: Entry)
    requires WellFormed(e.dir)
    ensures Descending(Below(e))
    decreases e.dir, 0
  {
    if IsPassedThrough(e.dir, |e.path|) && |e.path| <= MAX_DEPTH {
      BelowAllDescends(e.path, e.dir.subdirs);
    }
  }

  lemma {:induction false} BelowAllDescends(path: Path, ds: seq<Dir>)
    requires Listed(ds)
    ensures Descending(BelowAll(path, ds))
    decreases ds, 1
  {
    if ds != [] {
      var n := |ds| - 1;
      var last := Entry(path + [ds[n].name], ds[n]);
      var first, rest := Below(last), BelowAll(path, ds[..n]);
      BelowDescends(last);
      BelowAllDescends(path, ds[..n]);
      forall i, j | 0 <= i < |first| && 0 <= j < |rest| ensures PathPrecedes(rest[j].path, first[i].path) {
        BelowMembers(last, first[i]);
        BelowAllMembers(path, ds[..n], rest[j]);
        var sub := Child(ds[..n], rest[j].path[|path|]).value;
        assert first[i].path[|path|] == last.path[|path|] == ds[n].name;
        assert path <= first[i].path;
        SplitAt(path, rest[j].path, first[i].path);
      }
      DescendingConcat(first, rest);
    }
  }

  lemma DescendingConcat(a: seq<Entry>, b: seq<Entry>)
    requires Descending(a) && Descending(b)
    requires forall i, j :: 0 <= i < |a| && 0 <= j < |b| ==> PathPrecedes(b[j].path, a[i].path)
    ensures Descending(a + b)
  {
  }

  lemma CandidatesDescend(root: Dir)
    requires WellFormed(root)
    ensures Descending(Candidates(root))
  {
    BelowDescends(Entry([], root));
  }

  // ----- one job directory for each mode -----

  predicate NameBefore(a: Entry, b: Entry) {
    Precedes(a.dir.name, b.dir.name)
  }

  lemma NamesAreOrdered()
    ensures IsWeakOrder(NameBefore)
  {
    forall a, b | NameBefore(a, b) ensures !NameBefore(b, a) {
      PrecedesIsStrict(a.dir.name, b.dir.name);
    }
    forall a, b, c | NameBefore(a, c) ensures NameBefore(a, b) || NameBefore(b, c) {
      PrecedesIsTotal(a.dir.name, b.dir.name);
      if NameBefore(b, a) {
        PrecedesIsTransitive(b.dir.name, a.dir.name, c.dir.name);
      }
    }
  }

  function FirstOf(es: seq<Entry>, modeOf: Entry -> string, mode: string): Option<Entry> {
    if es == [] then None
    else if modeOf(es[0]) == mode then Some(es[0])
    else FirstOf(es[1..], modeOf, mode)
  }

  /** The entry kept for a mode: the first one under the least name. */
  function Best(es: seq<Entry>, modeOf: Entry -> string, mode: string): Option<Entry> {
    if es == [] then None
    else
      var last, before := es[|es| - 1], Best(es[..|es| - 1], modeOf, mode);
      if modeOf(last) == mode && (before.None? || Precedes(last.dir.name, before.value.dir.name)) then Some(last)
      else before
  }

  lemma {:induction false} InsertFirst(e: Entry, es: seq<Entry>, modeOf: Entry -> string, mode: string)
    requires InOrder(NameBefore, es)
    ensures var before := FirstOf(es, modeOf, mode);
            FirstOf(Insert(NameBefore, e, es), modeOf, mode) ==
            if modeOf(e) == mode && (before.None? || NameBefore(e, before.value)) then Some(e) else before
  {
    if es != [] {
      if NameBefore(e, es[0]) {
        assert ([e] + es)[1..] == es;
        NamesAreOrdered();
        forall i | 0 <= i < |es| ensures NameBefore(e, es[i]) {
          StrictlyFirst(es, i);
          Behind(NameBefore, e, es[0], es[i]);
        }
        FirstIsNotBefore(e, es, modeOf, mode);
      } else {
        InsertFirst(e, es[1..], modeOf, mode);
        assert ([es[0]] + Insert(NameBefore, e, es[1..]))[1..] == Insert(NameBefore, e, es[1..]);
      }
    }
  }

  lemma StrictlyFirst(es: seq<Entry>, i: nat)
    requires InOrder(NameBefore, es) && i < |es|
    ensures !NameBefore(es[i], es[0])
  {
    if i == 0 {
      PrecedesIsStrict(es[0].dir.name, es[0].dir.name);
    }
  }

  lemma {:induction false} FirstIsNotBefore(e: Entry, es: seq<Entry>, modeOf: Entry -> string, mode: string)
    requires forall i :: 0 <= i < |es| ==> NameBefore(e, es[i])
    ensures var first := FirstOf(es, modeOf, mode);
            first.Some? ==> NameBefore(e, first.value)
  {
    if es != [] {
      FirstIsNotBefore(e, es[1..], modeOf, mode);
    }
  }

  /** Sorting by name and taking the first of a mode is taking the first one under the least name. */
  lemma {:induction false} FirstIsBest(es: seq<Entry>, modeOf: Entry -> string, mode: string)
    ensures FirstOf(Sort(NameBefore, es), modeOf, mode) == Best(es, modeOf, mode)
  {
    if es != [] {
      var n := |es| - 1;
      FirstIsBest(es[..n], modeOf, mode);
      NamesAreOrdered();
      SortOrders(NameBefore, es[..n]);
      InsertFirst(es[n], Sort(NameBefore, es[..n]), modeOf, mode);
    }
  }

  /** e is kept for its mode: every other candidate of that mode has a greater name, or the same
      name at a path that comes before. */
  ghost predicate Kept(es: seq<Entry>, modeOf: Entry -> string, e: Entry) {
    && e in es
    && forall f :: f in es && modeOf(f) == modeOf(e) && f != e ==>
         Precedes(e.dir.name, f.dir.name) || (f.dir.name == e.dir.name && PathPrecedes(f.path, e.path))
  }

  lemma {:induction false} BestIsKept(es: seq<Entry>, modeOf: Entry -> string, mode: string)
    requires Descending(es)
    ensures var best := Best(es, modeOf, mode);
            && (best.Some? <==> exists e :: e in es && modeOf(e) == mode)
            && (best.Some? ==> modeOf(best.value) == mode && Kept(es, modeOf, best.value))
  {
    if es != [] {
      var n := |es| - 1;
      BestIsKept(es[..n], modeOf, mode);
      var last, before := es[n], Best(es[..n], modeOf, mode);
      assert es == es[..n] + [last];
      if modeOf(last) == mode && before.Some? {
        var i :| 0 <= i < n && es[i] == before.value;
        PrecedesIsTotal(last.dir.name, before.value.dir.name);
        if Precedes(last.dir.name, before.value.dir.name) {
          forall f | f in es[..n] && modeOf(f) == mode ensures Precedes(last.dir.name, f.dir.name) {
            if f != before.value && Precedes(before.value.dir.name, f.dir.name) {
              PrecedesIsTransitive(last.dir.name, before.value.dir.name, f.dir.name);
            }
          }
        }
      }
    }
  }

  function ModeOfEntry(e: Entry): string {
    ModeOf(e.dir.profile, e.dir.name)
  }

  /** The job directories by mode; no search without a directory, and the empty mode names none. */
  method DiscoverJobs(artifactsRoot: Option<Dir>) returns (jobs: map<string, Entry>)
    requires artifactsRoot.Some? ==> WellFormed(artifactsRoot.value)
    ensures artifactsRoot.None? ==> jobs == map[]
    ensures artifactsRoot.Some? ==> forall mode ::
              mode in jobs <==> mode != "" && exists e :: IsCandidate(artifactsRoot.value, e) && ModeOfEntry(e) == mode
    ensures forall mode :: mode in jobs ==>
              ModeOfEntry(jobs[mode]) == mode && Kept(Candidates(artifactsRoot.value), ModeOfEntry, jobs[mode])
  {
    jobs := map[];
    if artifactsRoot.None? {
      return;
    }
    var candidates := Search(artifactsRoot.value);
    var sorted := Sort(NameBefore, candidates);
    jobs := KeepFirst(sorted);
    forall mode
      ensures FirstOf(sorted, ModeOfEntry, mode).Some? <==>
              exists e :: IsCandidate(artifactsRoot.value, e) && ModeOfEntry(e) == mode
      ensures FirstOf(sorted, ModeOfEntry, mode).Some? ==>
                ModeOfEntry(FirstOf(sorted, ModeOfEntry, mode).value) == mode &&
                Kept(candidates, ModeOfEntry, FirstOf(sorted, ModeOfEntry, mode).value)
    {
      FirstOfCandidates(artifactsRoot.value, ModeOfEntry, mode);
    }
  }

  lemma FirstOfCandidates(root: Dir, modeOf: Entry -> string, mode: string)
    requires WellFormed(root)
    ensures var first := FirstOf(Sort(NameBefore, Candidates(root)), modeOf, mode);
            && (first.Some? <==> exists e :: IsCandidate(root, e) && modeOf(e) == mode)
            && (first.Some? ==> modeOf(first.value) == mode && Kept(Candidates(root), modeOf, first.value))
  {
    FirstIsBest(Candidates(root), modeOf, mode);
    CandidatesDescend(root);
    BestIsKept(Candidates(root), modeOf, mode);
    forall e ensures e in Candidates(root) <==> IsCandidate(root, e) {
      CandidatesExactly(root, e);
    }
  }

  /** The first entry of each mode. */
  method KeepFirst(sorted: seq<Entry>) returns (jobs: map<string, Entry>)
    ensures forall mode :: mode in jobs <==> mode != "" && FirstOf(sorted, ModeOfEntry, mode).Some?
    ensures forall mode :: mode in jobs ==> jobs[mode] == FirstOf(sorted, ModeOfEntry, mode).value
  {
    jobs := map[];
    for i := 0 to |sorted|
      invariant forall mode :: mode in jobs <==> mode != "" && FirstOf(sorted[..i], ModeOfEntry, mode).Some?
      invariant forall mode :: mode in jobs ==> jobs[mode] == FirstOf(sorted[..i], ModeOfEntry, mode).value
    {
      var mode := ModeForJobDir(sorted[i].dir.profile, sorted[i].dir.name);
      OneMore(sorted, i);
      forall m ensures FirstOf(sorted[..i + 1], ModeOfEntry, m) ==
                       if FirstOf(sorted[..i], ModeOfEntry, m).None? && mode == m then Some(sorted[i])
                       else FirstOf(sorted[..i], ModeOfEntry, m)
      {
        FirstGrows(sorted[..i], sorted[i], ModeOfEntry, m);
      }
      if mode != "" && mode !in jobs {
        jobs := jobs[mode := sorted[i]];
      }
    }
    assert sorted[..|sorted|] == sorted;
  }

  lemma {:induction false} FirstGrows(es: seq<Entry>, e: Entry, modeOf: Entry -> string, mode: string)
    ensures FirstOf(es + [e], modeOf, mode) ==
            if FirstOf(es, modeOf, mode).None? && modeOf(e) == mode then Some(e) else FirstOf(es, modeOf, mode)
  {
    if es != [] {
      assert (es + [e])[1..] == es[1..] + [e];
      FirstGrows(es[1..], e, modeOf, mode);
    }
  }
}
