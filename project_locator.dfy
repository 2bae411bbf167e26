/** Finding the Xcode workspace or project below the working directory
    (`find_xcode_project`) and the command-line flag and name the server
    derives from what was found. */
module ProjectLocator {
  import opened Wrappers
  import opened Strings

  /** A directory of the in-memory tree that stands for the file system:
      its name and its subdirectories (files play no part in the search). */
  datatype Dir = Dir(name: string, subdirs: seq<Dir>)

  /** A directory the build tool accepts as a workspace or a project. */
  predicate IsBundleName(name: string) {
    EndsWith(name, ".xcworkspace") || EndsWith(name, ".xcodeproj")
  }

  /** The names of some directories, in their order (`os.walk`'s `dirs`). */
  function Names(ds: seq<Dir>): (ns: seq<string>)
    ensures |ns| == |ds|
    ensures forall i :: 0 <= i < |ds| ==> ns[i] == ds[i].name
  {
    seq(|ds|, i requires 0 <= i < |ds| => ds[i].name)
  }

  /** No two entries of a directory, at any depth, share a name, as in a
      real file system. */
  ghost predicate UniqueNames(d: Dir)
    decreases d
  {
    (forall i, j :: 0 <= i < j < |d.subdirs| ==> d.subdirs[i].name != d.subdirs[j].name) &&
    forall c :: c in d.subdirs ==> UniqueNames(c)
  }

  /** The first of `ds` called `name`: `os.path.join(root, name)`. */
  function Lookup(ds: seq<Dir>, name: string): (c: Option<Dir>)
    ensures c.Some? ==> c.value in ds && c.value.name == name
    ensures c.None? ==> forall e :: e in ds ==> e.name != name
  {
    if ds == [] then None
    else if ds[0].name == name then Some(ds[0])
    else Lookup(ds[1..], name)
  }

  /** With unique names, the lookup finds the very directory named. */
  lemma {:induction false} LookupUnique(ds: seq<Dir>, k: nat)
    requires k < |ds|
    requires forall i, j :: 0 <= i < j < |ds| ==> ds[i].name != ds[j].name
    ensures Lookup(ds, ds[k].name) == Some(ds[k])
  {
    if k > 0 {
      LookupUnique(ds[1..], k - 1);
    }
  }

  // ---------------------------------------------------------------------
  // dirs.sort(reverse = True)

  /** Names in descending (reverse lexicographic) order. */
  predicate Descending(ns: seq<string>) {
    forall i, j :: 0 <= i < j < |ns| ==> Le(ns[j], ns[i])
  }

  /** Puts `n` into a descending sequence, in front of the first name not
      greater than it. */
  function Insert(n: string, ns: seq<string>): (r: seq<string>)
    requires Descending(ns)
    ensures Descending(r)
    ensures multiset(r) == multiset(ns) + multiset{n}
  {
    if ns == [] then [n]
    else if Le(ns[0], n) then
      assert Descending([n] + ns) by {
        forall j | 0 < j < |ns| { LeTrans(ns[j], ns[0], n); }
      }
      [n] + ns
    else
      var rest := Insert(n, ns[1..]);
      assert ns == [ns[0]] + ns[1..];
      assert Descending([ns[0]] + rest) by {
        LeTotal(ns[0], n);
        forall j | 0 <= j < |rest|
          ensures Le(rest[j], ns[0])
        {
          assert rest[j] in multiset(rest);
          if rest[j] != n {
            assert rest[j] in multiset(ns[1..]);
            var k :| 0 <= k < |ns[1..]| && ns[1..][k] == rest[j];
            assert ns[k + 1] == rest[j];
          }
        }
      }
      [ns[0]] + rest
  }

  /** Python's `list.sort(reverse = True)` on names: a descending
      permutation (an insertion sort here; it is stable, as Python's is). */
  function SortDesc(ns: seq<string>): (r: seq<string>)
    ensures Descending(r)
    ensures multiset(r) == multiset(ns)
  {
    if ns == [] then []
    else
      assert ns == [ns[0]] + ns[1..];
      Insert(ns[0], SortDesc(ns[1..]))
  }

  lemma DescendingTail(a: seq<string>)
    requires a != [] && Descending(a)
    ensures Descending(a[1..])
  {
  }

  /** Two descending arrangements of the same names start with the same,
      greatest, name. */
  lemma SameHead(a: seq<string>, b: seq<string>)
    requires a != [] && Descending(a) && Descending(b) && multiset(a) == multiset(b)
    ensures b != [] && a[0] == b[0]
  {
    assert a[0] in multiset(b) && b[0] in multiset(a);
    var i :| 0 <= i < |b| && b[i] == a[0];
    var j :| 0 <= j < |a| && a[j] == b[0];
    if i > 0 && j > 0 {
      assert Le(b[i], b[0]) && Le(a[j], a[0]);
      LeAntisymmetric(a[0], b[0]);
    }
  }

  /** Two descending arrangements of the same names are the same sequence:
      the reverse order is fully determined by the names. */
  lemma {:induction false} DescendingUnique(a: seq<string>, b: seq<string>)
    requires Descending(a) && Descending(b) && multiset(a) == multiset(b)
    ensures a == b
    decreases |a|
  {
    if a == [] {
      assert |multiset(b)| == 0;
    } else {
      SameHead(a, b);
      assert a == [a[0]] + a[1..] && b == [b[0]] + b[1..];
      assert multiset(a[1..]) == multiset(b[1..]) by {
        assert multiset(a) == multiset{a[0]} + multiset(a[1..]);
        assert multiset(b) == multiset{b[0]} + multiset(b[1..]);
        assert multiset(a[1..]) == multiset(a) - multiset{a[0]};
        assert multiset(b[1..]) == multiset(b) - multiset{a[0]};
      }
      DescendingTail(a);
      DescendingTail(b);
      DescendingUnique(a[1..], b[1..]);
    }
  }

  /** The names a directory's walk visits, in visiting order: its
      subdirectories' names in descending order. */
  ghost function Visit(d: Dir): (dirs: seq<string>)
    ensures Descending(dirs) && multiset(dirs) == multiset(Names(d.subdirs))
  {
    var names := Names(d.subdirs);
    var sorted := SortDesc(names);
    assert Descending(sorted) && multiset(sorted) == multiset(names);
    var dirs :| Descending(dirs) && multiset(dirs) == multiset(names);
    dirs
  }

  /** The walk visits exactly the names of the subdirectories. */
  lemma VisitNames(d: Dir)
    ensures |Visit(d)| == |d.subdirs|
    ensures forall n :: n in Visit(d) <==> exists c :: c in d.subdirs && c.name == n
  {
    var names := Names(d.subdirs);
    var dirs := Visit(d);
    assert |multiset(dirs)| == |multiset(names)|;
    forall n ensures n in dirs <==> exists c :: c in d.subdirs && c.name == n {
      assert n in dirs <==> n in multiset(dirs);
      assert n in names <==> n in multiset(names);
      if n in names {
        var i :| 0 <= i < |names| && names[i] == n;
        assert d.subdirs[i] in d.subdirs;
      }
    }
  }

  // ---------------------------------------------------------------------
  // The walk

  /** The index of the first bundle name in `dirs`, if any. */
  function FirstBundle(dirs: seq<string>): (r: Option<nat>)
    ensures r.Some? ==> r.value < |dirs| && IsBundleName(dirs[r.value])
    ensures forall k :: 0 <= k < |dirs| && (r.None? || k < r.value) ==> !IsBundleName(dirs[k])
  {
    if dirs == [] then None
    else if IsBundleName(dirs[0]) then Some(0)
    else match FirstBundle(dirs[1..])
      case None => None
      case Some(k) => Some(k + 1)
  }

  /** Sorting the names in reverse computes the visiting order. */
  lemma SortedVisit(d: Dir)
    ensures SortDesc(Names(d.subdirs)) == Visit(d)
  {
    DescendingUnique(SortDesc(Names(d.subdirs)), Visit(d));
  }

  /** What `find_xcode_project` returns when started in `d`: the names on
      the way from `d` down to the bundle it finds, or None. The walk is
      top-down and visits each level in descending name order: a level is
      first checked for a bundle name; only if none has one is each
      subdirectory walked in turn. */
  ghost function Locate(d: Dir): Option<seq<string>>
    decreases d, 1
  {
    var dirs := Visit(d);
    match FirstBundle(dirs)
    case Some(k) => Some([dirs[k]])
    case None => LocateBelow(d, dirs, 0)
  }

  /** The walk of the subdirectories of `d` named `dirs[j..]`, in turn. */
  ghost function LocateBelow(d: Dir, dirs: seq<string>, j: nat): Option<seq<string>>
    requires j <= |dirs|
    decreases d, 0, |dirs| - j
  {
    if j == |dirs| then None
    else match Lookup(d.subdirs, dirs[j])
      case None => LocateBelow(d, dirs, j + 1)
      case Some(c) =>
        match Locate(c)
        case Some(p) => Some([dirs[j]] + p)
        case None => LocateBelow(d, dirs, j + 1)
  }

  /** The scan of one level for a bundle name: the first one in `dirs`. */
  method FindBundle(dirs: seq<string>) returns (first: Option<nat>)
    ensures first == FirstBundle(dirs)
  {
    for i := 0 to |dirs|
      invariant forall k :: 0 <= k < i ==> !IsBundleName(dirs[k])
    {
      if EndsWith(dirs[i], ".xcworkspace") || EndsWith(dirs[i], ".xcodeproj") {
        return Some(i);
      }
    }
    return None;
  }

  /** `find_xcode_project`: `os.walk` from `d`, sorting each level's names
      in reverse and returning the first bundle among them; the second loop
      is `os.walk`'s own descent into each subdirectory, by name. */
  method FindXcodeProject(d: Dir) returns (found: Option<seq<string>>)
    ensures found == Locate(d)
    decreases d
  {
    var dirs := SortDesc(Names(d.subdirs));
    SortedVisit(d);
    var first := FindBundle(dirs);
    if first.Some? {
      return Some([dirs[first.value]]);
    }
    for j := 0 to |dirs|
      invariant LocateBelow(d, dirs, j) == Locate(d)
    {
      var sub := Lookup(d.subdirs, dirs[j]);
      if sub.Some? {
        var below := FindXcodeProject(sub.value);
        if below.Some? {
          return Some([dirs[j]] + below.value);
        }
      }
    }
    return None;
  }

  // ---------------------------------------------------------------------
  // What the walk promises

  /** `p` names a chain of nested directories starting below `d`. */
  ghost predicate IsPathIn(d: Dir, p: seq<string>)
    decreases d
  {
    |p| >= 1 &&
    exists c :: c in d.subdirs && c.name == p[0] && (|p| == 1 || IsPathIn(c, p[1..]))
  }

  /** Some directory below `d`, at any depth, has a bundle name. */
  ghost predicate HasBundle(d: Dir)
    decreases d
  {
    exists c :: c in d.subdirs && (IsBundleName(c.name) || HasBundle(c))
  }

  /** `p` leads from `d` down to a bundle and passes through no other one. */
  ghost predicate FoundIn(d: Dir, p: seq<string>) {
    IsPathIn(d, p) && IsBundleName(p[|p| - 1]) &&
    forall k :: 0 <= k < |p| - 1 ==> !IsBundleName(p[k])
  }

  /** Whatever `find_xcode_project` returns is a real path below the start
      whose last directory is a bundle and whose other directories are not. */
  lemma {:induction false} LocateSound(d: Dir)
    ensures Locate(d).Some? ==> FoundIn(d, Locate(d).value)
    decreases d, 1
  {
    var dirs := Visit(d);
    VisitNames(d);
    match FirstBundle(dirs)
    case Some(k) =>
      assert dirs[k] in dirs;
      var c :| c in d.subdirs && c.name == dirs[k];
      assert IsPathIn(d, [dirs[k]]);
    case None =>
      LocateBelowSound(d, dirs, 0);
  }

  lemma {:induction false} LocateBelowSound(d: Dir, dirs: seq<string>, j: nat)
    requires j <= |dirs| && FirstBundle(dirs).None?
    ensures LocateBelow(d, dirs, j).Some? ==> FoundIn(d, LocateBelow(d, dirs, j).value)
    decreases d, 0, |dirs| - j
  {
    if j < |dirs| {
      match Lookup(d.subdirs, dirs[j])
      case None =>
        LocateBelowSound(d, dirs, j + 1);
      case Some(c) =>
        LocateSound(c);
        match Locate(c)
        case Some(q) =>
          var p := [dirs[j]] + q;
          assert p[1..] == q;
          assert IsPathIn(d, p);
          assert !IsBundleName(p[0]);
        case None =>
          LocateBelowSound(d, dirs, j + 1);
    }
  }

  /** A found path leads to a bundle, so the walk finds something only if
      there is a bundle below the start. */
  lemma {:induction false} FoundHasBundle(d: Dir, p: seq<string>)
    requires FoundIn(d, p)
    ensures HasBundle(d)
    decreases d
  {
    var c :| c in d.subdirs && c.name == p[0] && (|p| == 1 || IsPathIn(c, p[1..]));
    if |p| > 1 {
      assert FoundIn(c, p[1..]);
      FoundHasBundle(c, p[1..]);
    }
  }

  /** With unique names, the walk finds a bundle whenever there is one. */
  lemma {:induction false} LocateComplete(d: Dir)
    requires UniqueNames(d) && HasBundle(d)
    ensures Locate(d).Some?
    decreases d, 1
  {
    var dirs := Visit(d);
    VisitNames(d);
    if FirstBundle(dirs).None? {
      var c :| c in d.subdirs && (IsBundleName(c.name) || HasBundle(c));
      assert c.name in dirs;
      var m :| 0 <= m < |dirs| && dirs[m] == c.name;
      var k :| 0 <= k < |d.subdirs| && d.subdirs[k] == c;
      LookupUnique(d.subdirs, k);
      LocateComplete(c);
      LocateBelowReaches(d, dirs, 0, m);
    }
  }

  /** The walk of `dirs[j..]` finds something if the entry at `m` does. */
  lemma {:induction false} LocateBelowReaches(d: Dir, dirs: seq<string>, j: nat, m: nat)
    requires j <= m < |dirs|
    requires Lookup(d.subdirs, dirs[m]).Some? && Locate(Lookup(d.subdirs, dirs[m]).value).Some?
    ensures LocateBelow(d, dirs, j).Some?
    decreases m - j
  {
    if j < m {
      LocateBelowReaches(d, dirs, j + 1, m);
    }
  }

  /** `find_xcode_project` returns None exactly when no directory anywhere
      below the start has a bundle name. */
  lemma LocateNoneIff(d: Dir)
    requires UniqueNames(d)
    ensures Locate(d).None? <==> !HasBundle(d)
  {
    LocateSound(d);
    if Locate(d).Some? {
      FoundHasBundle(d, Locate(d).value);
    }
    if HasBundle(d) {
      LocateComplete(d);
    }
  }

  /** When the start directory itself holds bundles, the one with the
      greatest name is returned: a workspace `Z.xcworkspace` is chosen over
      a project `A.xcodeproj` beside it. */
  lemma LocateTopLevel(d: Dir)
    requires exists c :: c in d.subdirs && IsBundleName(c.name)
    ensures Locate(d).Some? && |Locate(d).value| == 1
    ensures var n := Locate(d).value[0];
      IsBundleName(n) && (exists c :: c in d.subdirs && c.name == n) &&
      forall c :: c in d.subdirs && IsBundleName(c.name) ==> Le(c.name, n)
  {
    var dirs := Visit(d);
    VisitNames(d);
    var c0 :| c0 in d.subdirs && IsBundleName(c0.name);
    assert c0.name in dirs;
    var first := FirstBundle(dirs);
    var k := first.value;
    var n := dirs[k];
    assert n in dirs;
    assert Locate(d) == Some([n]);
    forall c | c in d.subdirs && IsBundleName(c.name) ensures Le(c.name, n) {
      assert c.name in dirs;
      var m :| 0 <= m < |dirs| && dirs[m] == c.name;
      if m == k {
        LeTotal(c.name, n);
      }
    }
  }

  /** Of the names `A.xcodeproj` and `Z.xcworkspace`, the only one not
      below `Z.xcworkspace` is `Z.xcworkspace` itself. */
  lemma GreatestOfTwo(d: Dir, n: string)
    requires |d.subdirs| == 2
    requires d.subdirs[0].name == "A.xcodeproj" && d.subdirs[1].name == "Z.xcworkspace"
    requires (exists c :: c in d.subdirs && c.name == n) && Le("Z.xcworkspace", n)
    ensures n == "Z.xcworkspace"
  {
    assert !Le("Z.xcworkspace", "A.xcodeproj");
  }

  /** With a project `A.xcodeproj` and a workspace `Z.xcworkspace` side by
      side at the top, whatever they hold, the workspace is chosen. */
  lemma WorkspaceBeatsProject(d: Dir)
    requires |d.subdirs| == 2
    requires d.subdirs[0].name == "A.xcodeproj" && d.subdirs[1].name == "Z.xcworkspace"
    ensures Locate(d) == Some(["Z.xcworkspace"])
  {
    var a, z := d.subdirs[0], d.subdirs[1];
    assert IsBundleName(z.name) by { assert EndsWith("Z.xcworkspace", ".xcworkspace"); }
    assert z in d.subdirs;
    LocateTopLevel(d);
    var p := Locate(d).value;
    assert p == [p[0]];
    GreatestOfTwo(d, p[0]);
  }

  // ---------------------------------------------------------------------
  // From the found path to the command line

  /** `os.path.join(".", ...)`: the found directory's path as a string. */
  function ProjectPath(p: seq<string>): string {
    Join(["."] + p, "/")
  }

  /** `os.path.basename(path)`: the found bundle's own name. */
  function ProjectName(p: seq<string>): string
    requires |p| >= 1
  {
    p[|p| - 1]
  }

  /** The flag that tells the build tool what kind of container it is given. */
  function ProjectFlag(path: string): string {
    if EndsWith(path, ".xcworkspace") then "-workspace" else "-project"
  }

  lemma {:induction false} JoinSnoc(xs: seq<string>, y: string, sep: string)
    requires |xs| >= 1
    ensures Join(xs + [y], sep) == Join(xs, sep) + sep + y
  {
    if |xs| > 1 {
      assert (xs + [y])[1..] == xs[1..] + [y];
      JoinSnoc(xs[1..], y, sep);
    }
  }

  /** The flag the server derives from the whole path says "-workspace"
      exactly when the bundle's own name ends in `.xcworkspace`, so that the
      flag and the name passed beside it always agree. */
  lemma ProjectFlagFromName(p: seq<string>)
    requires |p| >= 1 && '/' !in ProjectName(p)
    ensures ProjectFlag(ProjectPath(p)) == "-workspace" <==> EndsWith(ProjectName(p), ".xcworkspace")
    ensures ProjectFlag(ProjectPath(p)) == "-workspace" || ProjectFlag(ProjectPath(p)) == "-project"
  {
    var name := ProjectName(p);
    assert ["."] + p == (["."] + p[..|p| - 1]) + [name];
    JoinSnoc(["."] + p[..|p| - 1], name, "/");
    var path := ProjectPath(p);
    var suffix := ".xcworkspace";
    assert path == Join(["."] + p[..|p| - 1], "/") + "/" + name;
    if |name| >= |suffix| {
      assert path[|path| - |suffix|..] == name[|name| - |suffix|..];
    } else {
      var at := |suffix| - |name| - 1;
      assert path[|path| - |suffix| + at] == '/' != suffix[at];
    }
  }
}
