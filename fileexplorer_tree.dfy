/**
 * The directory tree of the file explorer: the tree built from the graph's
 * node ids, its preorder listing (which collapsed directories cut short),
 * and moving to the next or the previous entry of that listing.
 */
module FileexplorerTree {
  import opened Wrappers
  import opened Seqs
  import opened Strings
  import opened OrderedMaps

  /** The id and name of the top directory. */
  const Root: string := "root"

  /**
   * A directory: `id` is its full path (`root` for the top), `name` its last
   * segment, `directories` its sub-directories in insertion order (the
   * values of a record keyed by name), `files` the full ids of its files.
   */
  datatype Directory = Directory(
    id: string, name: string, directories: seq<Directory>, files: seq<string>, depth: nat)

  /** The top directory before hydration: empty, at depth 0. */
  function EmptyRoot(): Directory {
    Directory(Root, Root, [], [], 0)
  }

  /** `directories[id]?.isCollapsed`: a directory without an entry is not collapsed. */
  predicate IsCollapsed(flags: OMap<string, bool>, id: string) {
    id in flags.entries && flags.entries[id]
  }

  /** The lists one after the other. */
  function Flatten(ss: seq<seq<string>>): seq<string> {
    if ss == [] then [] else ss[0] + Flatten(ss[1..])
  }

  /** An element of one of the lists is an element of the flattened list. */
  lemma {:induction false} InFlatten(ss: seq<seq<string>>, k: nat, x: string)
    requires k < |ss| && x in ss[k]
    ensures x in Flatten(ss)
  {
    if k > 0 {
      InFlatten(ss[1..], k - 1, x);
    }
  }

  /**
   * `linearizeFilesAndDirs`: the directory's id, then the listing of each
   * sub-directory in order, then its files; a collapsed directory lists
   * only its own id.
   */
  function Linearize(dir: Directory, flags: OMap<string, bool>): (line: seq<string>)
    ensures |line| >= 1 && line[0] == dir.id
    ensures IsCollapsed(flags, dir.id) ==> line == [dir.id]
    decreases dir
  {
    if IsCollapsed(flags, dir.id) then [dir.id]
    else
      var subs := seq(|dir.directories|, k requires 0 <= k < |dir.directories| =>
        Linearize(dir.directories[k], flags));
      [dir.id] + Flatten(subs) + dir.files
  }

  /** The index of the first sub-directory with the given name, or -1: `dir.directories[name]`. */
  function Child(dirs: seq<Directory>, name: string): (k: int)
    ensures -1 <= k < |dirs|
    ensures k >= 0 ==> dirs[k].name == name && forall j :: 0 <= j < k ==> dirs[j].name != name
    ensures k == -1 ==> forall j :: 0 <= j < |dirs| ==> dirs[j].name != name
    decreases |dirs|
  {
    if dirs == [] then -1
    else if dirs[0].name == name then 0
    else
      var k := Child(dirs[1..], name);
      if k == -1 then -1 else k + 1
  }

  /** The directory reached from `dir` by following the names in `path`, if every step exists. */
  function Lookup(dir: Directory, path: seq<string>): Option<Directory>
    decreases |path|
  {
    if path == [] then Some(dir)
    else
      var k := Child(dir.directories, path[0]);
      if k < 0 then None else Lookup(dir.directories[k], path[1..])
  }

  /** Every directory on `path`, starting with `dir`, exists and is expanded. */
  predicate OpenPath(dir: Directory, path: seq<string>, flags: OMap<string, bool>)
    decreases |path|
  {
    !IsCollapsed(flags, dir.id) &&
    (path != [] ==>
      var k := Child(dir.directories, path[0]);
      k >= 0 && OpenPath(dir.directories[k], path[1..], flags))
  }

  /**
   * A file is listed when the directory holding it can be reached through
   * expanded directories only.
   */
  lemma {:induction false} ListedIfOpen(dir: Directory, path: seq<string>, flags: OMap<string, bool>, f: string)
    requires OpenPath(dir, path, flags)
    requires Lookup(dir, path).Some? && f in Lookup(dir, path).value.files
    ensures f in Linearize(dir, flags)
    decreases |path|
  {
    var subs := seq(|dir.directories|, k requires 0 <= k < |dir.directories| =>
      Linearize(dir.directories[k], flags));
    assert Linearize(dir, flags) == [dir.id] + Flatten(subs) + dir.files;
    if path != [] {
      var k := Child(dir.directories, path[0]);
      ListedIfOpen(dir.directories[k], path[1..], flags, f);
      InFlatten(subs, k, f);
    }
  }

  /** `line.indexOf(id)`: the first position of `id`, or -1. */
  function IndexOf(line: seq<string>, id: string): (i: int)
    ensures -1 <= i < |line|
    ensures i >= 0 ==> line[i] == id && forall j :: 0 <= j < i ==> line[j] != id
    ensures i == -1 <==> id !in line
    decreases |line|
  {
    if line == [] then -1
    else if line[0] == id then 0
    else
      var i := IndexOf(line[1..], id);
      if i == -1 then -1 else i + 1
  }

  /** `line[k] || fallback`: a missing entry and the empty string both give the fallback. */
  function EntryOr(line: seq<string>, k: int, fallback: string): string {
    if 0 <= k < |line| && line[k] != "" then line[k] else fallback
  }

  /**
   * `nextFileOrDir` on a listing: the entry after the first occurrence of
   * `id`; `id` itself at the end; the first entry when `id` is not listed.
   */
  function Next(line: seq<string>, id: string): (r: string)
    ensures r == id || r in line
    ensures id !in line && |line| > 0 && line[0] != "" ==> r == line[0]
    ensures id in line && line[|line| - 1] == id && id !in line[..|line| - 1] ==> r == id
  {
    var i := IndexOf(line, id);
    EntryOr(line, i + 1, id)
  }

  /**
   * `prevFileOrDir` on a listing: the entry before the first occurrence of
   * `id`; `id` itself at the start or when it is not listed.
   */
  function Prev(line: seq<string>, id: string): (r: string)
    ensures r == id || r in line
    ensures id !in line ==> r == id
    ensures |line| > 0 && line[0] == id ==> r == id
  {
    EntryOr(line, IndexOf(line, id) - 1, id)
  }

  /**
   * In a listing without repeats or empty ids, going forward from an entry
   * reaches the following one, and going back from that returns.
   */
  lemma NextPrevInverse(line: seq<string>, i: nat)
    requires Distinct(line) && forall j :: 0 <= j < |line| ==> line[j] != ""
    requires i + 1 < |line|
    ensures Next(line, line[i]) == line[i + 1]
    ensures Prev(line, line[i + 1]) == line[i]
    ensures Prev(line, Next(line, line[i])) == line[i]
  {
    assert IndexOf(line, line[i]) == i;
    assert IndexOf(line, line[i + 1]) == i + 1;
  }
  // ---------------------------------------------------------------------
  // Hydration: the tree built from the node ids
  // ---------------------------------------------------------------------

  /** No two sub-directories share a name, as the keys of a record. */
  predicate DistinctNames(dirs: seq<Directory>) {
    forall i, j :: 0 <= i < j < |dirs| ==> dirs[i].name != dirs[j].name
  }

  /**
   * The shape hydration gives a tree: the directory reached by the names in
   * `path` has depth `|path|` and, below the top, the id `path.join("/")`
   * and the last name of `path` as its name.
   */
  predicate Shaped(dir: Directory, path: seq<string>)
    decreases dir
  {
    dir.depth == |path| &&
    (path != [] ==> dir.id == Join(path, "/") && dir.name == path[|path| - 1]) &&
    DistinctNames(dir.directories) &&
    forall k :: 0 <= k < |dir.directories| ==>
      Shaped(dir.directories[k], path + [dir.directories[k].name])
  }

  /**
   * The inner loop of `hydrateRootDirectory` for one node id split into
   * `parts`, from `dir` at segment `i`: each missing directory on the way
   * is created (id: the segments so far joined by `/`, depth: their
   * number), and the node id is appended to the files of the last one.
   * The second result lists the ids of the directories created, in order.
   */
  function Place(dir: Directory, parts: seq<string>, i: nat, node: string): (r: (Directory, seq<string>))
    requires i < |parts|
    ensures r.0.id == dir.id && r.0.name == dir.name && r.0.depth == dir.depth
    decreases |parts| - i
  {
    if i == |parts| - 1 then (dir.(files := dir.files + [node]), [])
    else
      var k := Child(dir.directories, parts[i]);
      if k >= 0 then
        var sub := Place(dir.directories[k], parts, i + 1, node);
        (dir.(directories := dir.directories[k := sub.0]), sub.1)
      else
        var made := Directory(Join(parts[..i + 1], "/"), parts[i], [], [], i + 1);
        var sub := Place(made, parts, i + 1, node);
        (dir.(directories := dir.directories + [sub.0]), [made.id] + sub.1)
  }

  /** Lists with the same names, position by position, find the same child. */
  lemma {:induction false} ChildSameNames(a: seq<Directory>, b: seq<Directory>, name: string)
    requires |a| == |b| && forall j :: 0 <= j < |a| ==> a[j].name == b[j].name
    ensures Child(a, name) == Child(b, name)
  {
    var k := Child(a, name);
    if k >= 0 {
      assert b[k].name == name;
      assert forall j :: 0 <= j < k ==> b[j].name == a[j].name;
    } else {
      assert forall j :: 0 <= j < |b| ==> b[j].name == a[j].name;
    }
  }

  /** Appending a directory changes no lookup that already succeeded, and finds the new one by its name otherwise. */
  lemma ChildAppend(a: seq<Directory>, d: Directory, name: string)
    ensures Child(a, name) >= 0 ==> Child(a + [d], name) == Child(a, name)
    ensures Child(a, name) == -1 && d.name == name ==> Child(a + [d], name) == |a|
  {
    var k := Child(a, name);
    var b := a + [d];
    if k >= 0 {
      assert b[k] == a[k];
      assert forall j :: 0 <= j < k ==> b[j] == a[j];
    } else if d.name == name {
      assert forall j :: 0 <= j < |a| ==> b[j] == a[j];
      assert b[|a|].name == name;
      var k' := Child(b, name);
      assert k' >= 0;
      assert !(k' < |a|);
    }
  }

  /** Hydration keeps the shape of a shaped tree. */
  lemma {:induction false} PlaceShaped(dir: Directory, parts: seq<string>, i: nat, node: string)
    requires i < |parts| && Shaped(dir, parts[..i])
    ensures Shaped(Place(dir, parts, i, node).0, parts[..i])
    decreases |parts| - i
  {
    var r := Place(dir, parts, i, node);
    var dirs := dir.directories;
    if i < |parts| - 1 {
      var k := Child(dirs, parts[i]);
      assert parts[..i] + [parts[i]] == parts[..i + 1];
      if k >= 0 {
        PlaceShaped(dirs[k], parts, i + 1, node);
        var sub := Place(dirs[k], parts, i + 1, node).0;
        assert r.0.directories == dirs[k := sub];
        assert forall j :: 0 <= j < |dirs| ==> r.0.directories[j].name == dirs[j].name;
      } else {
        var made := Directory(Join(parts[..i + 1], "/"), parts[i], [], [], i + 1);
        assert Shaped(made, parts[..i + 1]);
        PlaceShaped(made, parts, i + 1, node);
        var sub := Place(made, parts, i + 1, node).0;
        assert r.0.directories == dirs + [sub];
        assert Shaped(sub, parts[..i] + [sub.name]);
      }
    }
  }

  /** After hydration of a node id, the directory named by all its segments but the last holds it. */
  lemma {:induction false} PlaceFiles(dir: Directory, parts: seq<string>, i: nat, node: string)
    requires i < |parts|
    ensures var found := Lookup(Place(dir, parts, i, node).0, parts[i..|parts| - 1]);
      found.Some? && node in found.value.files
    decreases |parts| - i
  {
    var r := Place(dir, parts, i, node);
    var dirs := dir.directories;
    if i < |parts| - 1 {
      var path := parts[i..|parts| - 1];
      assert path[0] == parts[i] && path[1..] == parts[i + 1..|parts| - 1];
      var k := Child(dirs, parts[i]);
      if k >= 0 {
        var sub := Place(dirs[k], parts, i + 1, node).0;
        PlaceFiles(dirs[k], parts, i + 1, node);
        ChildSameNames(dirs, dirs[k := sub], parts[i]);
      } else {
        var made := Directory(Join(parts[..i + 1], "/"), parts[i], [], [], i + 1);
        var sub := Place(made, parts, i + 1, node).0;
        PlaceFiles(made, parts, i + 1, node);
        ChildAppend(dirs, sub, parts[i]);
      }
    } else {
      assert parts[i..|parts| - 1] == [];
    }
  }

  /** Hydrating one more node id loses no directory and no file that was already placed. */
  lemma {:induction false} PlaceKeeps(dir: Directory, parts: seq<string>, i: nat, node: string, path: seq<string>)
    requires i < |parts| && Lookup(dir, path).Some?
    ensures var found := Lookup(Place(dir, parts, i, node).0, path);
      found.Some? && forall f :: f in Lookup(dir, path).value.files ==> f in found.value.files
    decreases |path|
  {
    var r := Place(dir, parts, i, node);
    var dirs := dir.directories;
    if path != [] && i < |parts| - 1 {
      var m := Child(dirs, path[0]);
      var k := Child(dirs, parts[i]);
      if k >= 0 {
        var sub := Place(dirs[k], parts, i + 1, node).0;
        ChildSameNames(dirs, dirs[k := sub], path[0]);
        if m == k {
          PlaceKeeps(dirs[k], parts, i + 1, node, path[1..]);
        }
      } else {
        var made := Directory(Join(parts[..i + 1], "/"), parts[i], [], [], i + 1);
        var sub := Place(made, parts, i + 1, node).0;
        ChildAppend(dirs, sub, path[0]);
        assert (dirs + [sub])[m] == dirs[m];
      }
    }
  }

  /** The directory and every directory below it have their ids in `ids`. */
  predicate AllIn(dir: Directory, ids: set<string>)
    decreases dir
  {
    dir.id in ids && forall k :: 0 <= k < |dir.directories| ==> AllIn(dir.directories[k], ids)
  }

  /** Every directory strictly below `dir` has its id in `ids`. */
  predicate SubdirsIn(dir: Directory, ids: set<string>) {
    forall k :: 0 <= k < |dir.directories| ==> AllIn(dir.directories[k], ids)
  }

  lemma {:induction false} AllInGrows(dir: Directory, a: set<string>, b: set<string>)
    requires AllIn(dir, a) && a <= b
    ensures AllIn(dir, b)
    decreases dir
  {
    forall k | 0 <= k < |dir.directories| ensures AllIn(dir.directories[k], b) {
      AllInGrows(dir.directories[k], a, b);
    }
  }

  /** The only directories hydration adds are the ones it reports as created. */
  lemma {:induction false} PlaceSubdirsIn(dir: Directory, parts: seq<string>, i: nat, node: string, ids: set<string>)
    requires i < |parts| && SubdirsIn(dir, ids)
    requires forall x :: x in Place(dir, parts, i, node).1 ==> x in ids
    ensures SubdirsIn(Place(dir, parts, i, node).0, ids)
    decreases |parts| - i
  {
    var r := Place(dir, parts, i, node);
    var dirs := dir.directories;
    if i < |parts| - 1 {
      var k := Child(dirs, parts[i]);
      if k >= 0 {
        PlaceSubdirsIn(dirs[k], parts, i + 1, node, ids);
        var sub := Place(dirs[k], parts, i + 1, node).0;
        assert AllIn(sub, ids);
        assert r.0.directories == dirs[k := sub];
      } else {
        var made := Directory(Join(parts[..i + 1], "/"), parts[i], [], [], i + 1);
        PlaceSubdirsIn(made, parts, i + 1, node, ids);
        var sub := Place(made, parts, i + 1, node).0;
        assert made.id in r.1;
        assert AllIn(sub, ids);
        assert r.0.directories == dirs + [sub];
      }
    }
  }

  /**
   * Every file of the tree, sub-directories first, in the order of the
   * listing of a fully expanded tree.
   */
  function AllFiles(dir: Directory): seq<string>
    decreases dir
  {
    var subs := seq(|dir.directories|, k requires 0 <= k < |dir.directories| =>
      AllFiles(dir.directories[k]));
    Flatten(subs) + dir.files
  }

  lemma {:induction false} FlattenAppend(ss: seq<seq<string>>, x: seq<string>)
    ensures Flatten(ss + [x]) == Flatten(ss) + x
    decreases |ss|
  {
    if ss != [] {
      assert (ss + [x])[1..] == ss[1..] + [x];
      FlattenAppend(ss[1..], x);
    } else {
      assert ss + [x] == [x];
    }
  }

  /** Replacing one of the lists by one with `extra` more elements adds `extra` to the flattened list. */
  lemma {:induction false} FlattenUpdate(ss: seq<seq<string>>, k: nat, x: seq<string>, extra: multiset<string>)
    requires k < |ss| && multiset(x) == multiset(ss[k]) + extra
    ensures multiset(Flatten(ss[k := x])) == multiset(Flatten(ss)) + extra
    decreases k
  {
    var tt := ss[k := x];
    assert Flatten(tt) == tt[0] + Flatten(tt[1..]);
    assert Flatten(ss) == ss[0] + Flatten(ss[1..]);
    if k == 0 {
      assert tt[1..] == ss[1..];
    } else {
      assert tt[1..] == ss[1..][k - 1 := x];
      assert tt[0] == ss[0] && ss[1..][k - 1] == ss[k];
      FlattenUpdate(ss[1..], k - 1, x, extra);
    }
  }

  /** Replacing a sub-directory by one with `extra` more files adds `extra` to the files of the tree. */
  lemma AllFilesUpdate(dir: Directory, m: nat, sub: Directory, extra: multiset<string>)
    requires m < |dir.directories|
    requires multiset(AllFiles(sub)) == multiset(AllFiles(dir.directories[m])) + extra
    ensures multiset(AllFiles(dir.(directories := dir.directories[m := sub]))) == multiset(AllFiles(dir)) + extra
  {
    var d' := dir.(directories := dir.directories[m := sub]);
    var subs := seq(|dir.directories|, k requires 0 <= k < |dir.directories| =>
      AllFiles(dir.directories[k]));
    var subs' := seq(|d'.directories|, k requires 0 <= k < |d'.directories| =>
      AllFiles(d'.directories[k]));
    assert AllFiles(dir) == Flatten(subs) + dir.files;
    assert AllFiles(d') == Flatten(subs') + dir.files;
    assert subs' == subs[m := AllFiles(sub)];
    assert subs[m] == AllFiles(dir.directories[m]);
    FlattenUpdate(subs, m, AllFiles(sub), extra);
    var x, x' := Flatten(subs), Flatten(subs');
    assert multiset(AllFiles(d')) == multiset(x') + multiset(dir.files);
    assert multiset(AllFiles(dir)) == multiset(x) + multiset(dir.files);
    SwapLast(multiset(x), extra, multiset(dir.files));
  }

  lemma SwapLast(a: multiset<string>, b: multiset<string>, c: multiset<string>)
    ensures (a + b) + c == (a + c) + b
  {
  }

  /** Appending a sub-directory appends its files to those of the sub-directories. */
  lemma AllFilesAppend(dir: Directory, sub: Directory)
    ensures multiset(AllFiles(dir.(directories := dir.directories + [sub])))
      == multiset(AllFiles(dir)) + multiset(AllFiles(sub))
  {
    var d' := dir.(directories := dir.directories + [sub]);
    var subs := seq(|dir.directories|, k requires 0 <= k < |dir.directories| =>
      AllFiles(dir.directories[k]));
    var subs' := seq(|d'.directories|, k requires 0 <= k < |d'.directories| =>
      AllFiles(d'.directories[k]));
    assert subs' == subs + [AllFiles(sub)];
    FlattenAppend(subs, AllFiles(sub));
  }

  /** Appending a file to a directory appends it to the files of the tree. */
  lemma AllFilesAddFile(dir: Directory, node: string)
    ensures AllFiles(dir.(files := dir.files + [node])) == AllFiles(dir) + [node]
  {
    var subs := seq(|dir.directories|, k requires 0 <= k < |dir.directories| =>
      AllFiles(dir.directories[k]));
    assert AllFiles(dir) == Flatten(subs) + dir.files;
    assert AllFiles(dir.(files := dir.files + [node])) == Flatten(subs) + (dir.files + [node]);
  }

  /** Hydrating a node id adds exactly that id to the files of the tree, and no other. */
  lemma {:induction false} PlaceAddsOneFile(dir: Directory, parts: seq<string>, i: nat, node: string)
    requires i < |parts|
    ensures multiset(AllFiles(Place(dir, parts, i, node).0)) == multiset(AllFiles(dir)) + multiset{node}
    decreases |parts| - i
  {
    var dirs := dir.directories;
    var r := Place(dir, parts, i, node).0;
    if i == |parts| - 1 {
      AllFilesAddFile(dir, node);
    } else {
      var k := Child(dirs, parts[i]);
      if k >= 0 {
        var sub := Place(dirs[k], parts, i + 1, node).0;
        assert r == dir.(directories := dirs[k := sub]);
        PlaceAddsOneFile(dirs[k], parts, i + 1, node);
        AllFilesUpdate(dir, k, sub, multiset{node});
      } else {
        var made := Directory(Join(parts[..i + 1], "/"), parts[i], [], [], i + 1);
        var sub := Place(made, parts, i + 1, node).0;
        assert r == dir.(directories := dirs + [sub]);
        PlaceAddsOneFile(made, parts, i + 1, node);
        assert AllFiles(made) == [];
        AllFilesAppend(dir, sub);
      }
    }
  }

  /** The node id lies in the directory named by all its `/`-segments but the last. */
  predicate Placed(tree: Directory, node: string) {
    var parts := Split(node, "/");
    var found := Lookup(tree, parts[..|parts| - 1]);
    found.Some? && node in found.value.files
  }
}
