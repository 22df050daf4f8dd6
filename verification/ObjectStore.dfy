/** The privacy gateway's objects: slash-separated keys stored as files in a directory tree. */
module ObjectStore {
  import opened Wrappers
  import opened Text
  import opened Orders
  import opened Lists
  import opened FileTree

  // Keys and paths

  /** Whether some segment is empty or a traversal segment. */
  predicate Traverses(segments: seq<string>) {
    exists i :: 0 <= i < |segments| && (segments[i] == "" || segments[i] == "." || segments[i] == "..")
  }

  predicate IsRelative(key: string) {
    !("/" <= key) && '\\' !in key && !Traverses(Split(key, '/'))
  }

  /** `decodeURIComponent`, where it does not throw, and the checks on its result. */
  function SanitizeObjectKey(decode: string -> Option<string>, encoded: Option<string>): Option<string> {
    if encoded.None? || encoded.value == "" then None
    else var key := decode(encoded.value); if key.Some? && IsRelative(key.value) then key else None
  }

  /** `path.join` below an absolute directory: empty and `.` segments vanish, `..` goes up. */
  function Resolve(base: Path, segments: seq<string>): Path
    decreases |segments|
  {
    if segments == [] then base
    else
      var s := segments[0];
      var next :=
        if s == "" || s == "." then base
        else if s == ".." then (if base == [] then [] else base[..|base| - 1])
        else base + [s];
      Resolve(next, segments[1..])
  }

  lemma {:induction false} ResolveOn(base: Path, a: seq<string>, b: seq<string>)
    ensures Resolve(base, a + b) == Resolve(Resolve(base, a), b)
    decreases |a|
  {
    if a == [] {
      assert a + b == b;
    } else {
      assert (a + b)[1..] == a[1..] + b;
      var s := a[0];
      var next :=
        if s == "" || s == "." then base
        else if s == ".." then (if base == [] then [] else base[..|base| - 1])
        else base + [s];
      ResolveOn(next, a[1..], b);
    }
  }

  /** Wherever they stand, empty and `.` segments change nothing, and `..` takes back the plain segment before it. */
  lemma ResolveNormalizes(base: Path, a: seq<string>, s: string, b: seq<string>)
    ensures Resolve(base, a + [""] + b) == Resolve(base, a + ["."] + b) == Resolve(base, a + b)
    ensures s != "" && s != "." && s != ".." ==> Resolve(base, a + [s, ".."] + b) == Resolve(base, a + b)
    ensures s != "" && s != "." && s != ".." ==> Resolve(base, a + [s]) == Resolve(base, a) + [s]
  {
    hide Resolve;
    ResolveOn(base, a, b);
    ResolveOn(base, a + [""], b);
    ResolveOn(base, a + ["."], b);
    ResolveOn(base, a + [s, ".."], b);
    ResolveOn(base, a, [""]);
    ResolveOn(base, a, ["."]);
    ResolveOn(base, a, [s, ".."]);
    ResolveOn(base, a, [s]);
    StepsOf(Resolve(base, a), s);
  }

  lemma StepsOf(at: Path, s: string)
    ensures Resolve(at, [""]) == at && Resolve(at, ["."]) == at
    ensures s != "" && s != "." && s != ".." ==> Resolve(at, [s]) == at + [s] && Resolve(at, [s, ".."]) == at
  {
    var up := [".."];
    assert [s, ".."][1..] == up && up[1..] == [];
    assert Resolve(at + [s], up) == (at + [s])[..|at + [s]| - 1];
    assert (at + [s])[..|at + [s]| - 1] == at;
  }

  function CommonLength(a: Path, b: Path): (n: nat)
    ensures n <= |a| && n <= |b| && a[..n] == b[..n]
    ensures n == |a| || n == |b| || a[n] != b[n]
  {
    if a == [] || b == [] || a[0] != b[0] then 0 else 1 + CommonLength(a[1..], b[1..])
  }

  /** `path.relative` between absolute paths: up to the common directory and down again. */
  function RelativeTo(from: Path, to: Path): Path {
    var n := CommonLength(from, to);
    seq(|from| - n, _ => "..") + to[n..]
  }

  function ObjectPath(base: Path, key: string): Option<Path> {
    var target := Resolve(base, Split(key, '/'));
    var relative := Join(RelativeTo(base, target), '/');
    if ".." <= relative || "/" <= relative then None else Some(target)
  }

  lemma RelativeUp(base: Path, target: Path)
    ensures !(base <= target) ==> ".." <= Join(RelativeTo(base, target), '/')
  {
    if CommonLength(base, target) < |base| {
      assert RelativeTo(base, target)[0] == "..";
    }
  }

  /** Whatever the key, the path given out is inside the base directory. */
  lemma Confines(base: Path, key: string)
    requires ObjectPath(base, key).Some?
    ensures base <= ObjectPath(base, key).value
  {
    hide Split, Resolve, RelativeTo, Join;
    RelativeUp(base, Resolve(base, Split(key, '/')));
  }

  lemma {:induction false} CommonBelow(base: Path, rest: Path)
    ensures CommonLength(base, base + rest) == |base|
  {
    if base != [] {
      CommonBelow(base[1..], rest);
      assert (base + rest)[1..] == base[1..] + rest;
    }
  }

  lemma {:induction false} ResolveClean(base: Path, segments: seq<string>)
    requires !Traverses(segments)
    ensures Resolve(base, segments) == base + segments
    decreases |segments|
  {
    if segments != [] {
      var s := segments[0];
      assert s != "" && s != "." && s != "..";
      forall i | 0 <= i < |segments[1..]| ensures segments[1..][i] == segments[i + 1] {
      }
      ResolveClean(base + [s], segments[1..]);
      assert base + [s] + segments[1..] == base + segments;
    }
  }

  /** A sanitized key's path is its segments below the base; only a key that starts with two dots gets none. */
  lemma KeyPath(base: Path, key: string)
    requires IsRelative(key)
    ensures ObjectPath(base, key) == if ".." <= key then None else Some(base + Split(key, '/'))
  {
    hide Split, Resolve, Traverses, Join;
    var segments := Split(key, '/');
    var target := base + segments;
    ResolveClean(base, segments);
    CommonBelow(base, segments);
    assert RelativeTo(base, target) == segments;
    JoinSplit(key, '/');
  }

  /** Such a key passes the sanitizer, and its file would be inside the base directory, yet it has no path. */
  lemma TwoDotsRefused(base: Path)
    ensures IsRelative("..a") && base <= Resolve(base, Split("..a", '/')) && ObjectPath(base, "..a").None?
  {
    hide Split, Resolve, ObjectPath;
    SplitFirst("..a", '/', []);
    assert !Traverses(["..a"]);
    assert "..a"[0] != "/"[0];
    assert IsRelative("..a");
    ResolveClean(base, ["..a"]);
    KeyPath(base, "..a");
  }

  predicate Storable(key: string) {
    IsRelative(key) && !(".." <= key)
  }

  /** Different keys never share a path. */
  lemma KeyPathInjective(base: Path, a: string, b: string)
    requires Storable(a) && Storable(b)
    ensures ObjectPath(base, a).Some?
    ensures ObjectPath(base, a) == ObjectPath(base, b) <==> a == b
  {
    hide Split, Resolve, Traverses, Join, RelativeTo, ObjectPath, IsRelative;
    KeyPath(base, a);
    KeyPath(base, b);
    JoinSplit(a, '/');
    JoinSplit(b, '/');
    if base + Split(a, '/') == base + Split(b, '/') {
      assert (base + Split(a, '/'))[|base|..] == Split(a, '/') && (base + Split(b, '/'))[|base|..] == Split(b, '/');
    }
  }

  /** The key a request names, if it may be stored. */
  function Routed(decode: string -> Option<string>, encoded: Option<string>): Option<string> {
    var key := SanitizeObjectKey(decode, encoded);
    if key.Some? && Storable(key.value) then key else None
  }

  /**
   The rule, spelled out: the decoded text, when it is a relative path of plain segments not starting with two dots.
   */
  lemma RoutedIff(decode: string -> Option<string>, encoded: Option<string>, key: string, parts: seq<string>)
    requires parts == Split(key, '/')
    ensures Routed(decode, encoded) == Some(key) <==>
            && encoded.Some? && encoded.value != "" && decode(encoded.value) == Some(key)
            && (key == "" || key[0] != '/') && '\\' !in key && !(".." <= key)
            && (forall i :: 0 <= i < |parts| ==> parts[i] !in {"", ".", ".."})
  {
    hide Split;
    assert "/" <= key <==> key != "" && key[0] == '/';
  }

  // What the tree must look like for a map of live keys

  /** Whether the path is that of a live key. */
  predicate Holds(live: map<string, string>, q: Path) {
    Join(q, '/') in live && Split(Join(q, '/'), '/') == q
  }

  /** Directories stay: they are the proper prefixes of every path ever put. */
  ghost predicate IsDir(ever: set<Path>, q: Path) {
    q == [] || exists e :: e in ever && q < e
  }

  ghost predicate HeldAbove(live: map<string, string>, q: Path) {
    exists p :: Holds(live, p) && p < q
  }

  ghost function View(live: map<string, string>, ever: set<Path>, q: Path): Sight {
    if IsDir(ever, q) then DirHere
    else if Holds(live, q) then FileHere(live[Join(q, '/')])
    else if HeldAbove(live, q) then Blocked
    else Missing
  }

  ghost predicate Refines(root: Node, live: map<string, string>, ever: set<Path>) {
    && root.Dir? && Distinct(root)
    && (forall q :: At(root, q) == View(live, ever, q))
    && (forall q :: Holds(live, q) ==> !IsDir(ever, q))
  }

  lemma HoldsSplit(live: map<string, string>, key: string)
    ensures Holds(live, Split(key, '/')) <==> key in live
    ensures Join(Split(key, '/'), '/') == key
  {
    JoinSplit(key, '/');
  }

  lemma {:induction false} Above(node: Node, p: Path, q: Path)
    requires p < q
    ensures At(node, q).FileHere? || At(node, q).DirHere? ==> At(node, p).DirHere?
    ensures At(node, p).FileHere? ==> At(node, q) == Blocked
    decreases |p|
  {
    if p != [] && node.Dir? && Find(node.kids, p[0]).Some? {
      Above(Find(node.kids, p[0]).value, p[1..], q[1..]);
    }
  }

  /** No live key lies below another. */
  lemma LiveKeysApart(root: Node, live: map<string, string>, ever: set<Path>, a: string, b: string)
    requires Refines(root, live, ever) && a in live && b in live
    ensures !(Split(a, '/') < Split(b, '/'))
  {
    hide Split, Join, IsDir, HeldAbove, Holds;
    var p, q := Split(a, '/'), Split(b, '/');
    HoldsSplit(live, a);
    HoldsSplit(live, b);
    assert At(root, p).FileHere? && At(root, q).FileHere?;
    if p < q {
      Above(root, p, q);
    }
  }

  lemma RootIsDir(ever: set<Path>)
    ensures IsDir(ever, [])
  {
  }

  /** A put fails exactly below a live key, and at a directory. */
  lemma PutFailsWhen(root: Node, live: map<string, string>, ever: set<Path>, path: Path, body: string)
    requires Refines(root, live, ever) && path != []
    ensures Put(root, path, body).None? <==> HeldAbove(live, path) || IsDir(ever, path)
    ensures MakeDirs(root, path[..|path| - 1]).Some? && Put(root, path, body).None? ==>
            MakeDirs(root, path[..|path| - 1]).value == root
  {
    hide Split, Join, Holds, IsDir, Put;
    PutFails(root, path, body);
    assert At(root, path) == View(live, ever, path);
    RootIsDir(ever);
    if FileAbove(root, path) {
      var i :| 0 < i < |path| && At(root, path[..i]).FileHere?;
      assert Holds(live, path[..i]) && path[..i] < path;
    }
    if HeldAbove(live, path) {
      var p :| Holds(live, p) && p < path;
      assert !IsDir(ever, p);
      assert At(root, p) == View(live, ever, p);
      assert p == path[..|p|] && p != [];
      assert At(root, path[..|p|]).FileHere?;
    }
  }

  lemma PutHolds(live: map<string, string>, key: string, body: string, q: Path)
    ensures Holds(live[key := body], q) <==> Holds(live, q) || q == Split(key, '/')
    ensures Holds(live[key := body], q) ==>
            live[key := body][Join(q, '/')] == if q == Split(key, '/') then body else live[Join(q, '/')]
  {
    hide Split, Join;
    JoinSplit(key, '/');
  }

  /** A put that succeeds sets its key and nothing else. */
  lemma PutRefines(root: Node, live: map<string, string>, ever: set<Path>, key: string, body: string)
    requires Refines(root, live, ever) && Put(root, Split(key, '/'), body).Some?
    ensures Refines(Put(root, Split(key, '/'), body).value, live[key := body], ever + {Split(key, '/')})
  {
    hide Split, Join, Put, HeldAbove, IsDir, Holds, View;
    var path := Split(key, '/');
    var next := Put(root, path, body).value;
    var newLive, newEver := live[key := body], ever + {path};
    PutFailsWhen(root, live, ever, path, body);
    PutSees(root, path, body, []);
    forall q ensures At(next, q) == View(newLive, newEver, q) && (Holds(newLive, q) ==> !IsDir(newEver, q)) {
      PutSees(root, path, body, q);
      PutAt(root, live, ever, key, body, q);
    }
  }

  lemma PutIsDir(ever: set<Path>, path: Path, q: Path)
    ensures IsDir(ever + {path}, q) <==> IsDir(ever, q) || q < path
  {
    if q < path {
      assert path in ever + {path};
    }
    if e :| e in ever && q < e {
      assert e in ever + {path};
    }
  }

  lemma PutHeldAbove(live: map<string, string>, key: string, body: string, q: Path)
    ensures HeldAbove(live[key := body], q) <==> HeldAbove(live, q) || Split(key, '/') < q
  {
    hide Split, Join, Holds;
    if Split(key, '/') < q {
      PutHolds(live, key, body, Split(key, '/'));
    }
    var newLive := live[key := body];
    if HeldAbove(live, q) {
      var p :| Holds(live, p) && p < q;
      PutHolds(live, key, body, p);
    }
    if HeldAbove(newLive, q) {
      var p :| Holds(newLive, p) && p < q;
      PutHolds(live, key, body, p);
    }
  }

  lemma HoldsAbove(live: map<string, string>, p: Path, q: Path)
    ensures Holds(live, p) && p < q ==> HeldAbove(live, q)
  {
    hide Holds;
  }

  /** The new view at one path. */
  lemma PutAt(root: Node, live: map<string, string>, ever: set<Path>, key: string, body: string, q: Path)
    requires Refines(root, live, ever)
    requires !HeldAbove(live, Split(key, '/')) && !IsDir(ever, Split(key, '/'))
    ensures View(live[key := body], ever + {Split(key, '/')}, q) == Written(At(root, q), Split(key, '/'), body, q)
    ensures Holds(live[key := body], q) ==> !IsDir(ever + {Split(key, '/')}, q)
  {
    hide Split, Join, Holds, IsDir, HeldAbove;
    var path := Split(key, '/');
    PutHolds(live, key, body, q);
    PutIsDir(ever, path, q);
    PutHeldAbove(live, key, body, q);
    assert At(root, q) == View(live, ever, q);
    assert At(root, path) == View(live, ever, path);
    HoldsAbove(live, q, path);
    if path < q {
      Above(root, path, q);
    }
    JoinSplit(key, '/');
  }

  lemma RemoveHolds(live: map<string, string>, key: string, q: Path)
    ensures Holds(live - {key}, q) <==> Holds(live, q) && q != Split(key, '/')
    ensures Holds(live - {key}, q) ==> (live - {key})[Join(q, '/')] == live[Join(q, '/')]
  {
    hide Split, Join;
    JoinSplit(key, '/');
  }

  /** When a removal succeeds, and the view it leaves at one path. */
  lemma RemoveAt(root: Node, live: map<string, string>, ever: set<Path>, key: string, q: Path)
    requires Refines(root, live, ever)
    requires !IsDir(ever, Split(key, '/')) && !HeldAbove(live, Split(key, '/'))
    ensures View(live - {key}, ever, q) ==
            if Split(key, '/') <= q && At(root, Split(key, '/')).FileHere? then Missing else At(root, q)
    ensures Holds(live - {key}, q) ==> !IsDir(ever, q)
  {
    hide Split, Join, Holds, IsDir, HeldAbove;
    var path := Split(key, '/');
    RemoveHolds(live, key, q);
    assert At(root, q) == View(live, ever, q);
    assert At(root, path) == View(live, ever, path);
    if path < q {
      Above(root, path, q);
    }
    RemoveHeldAbove(root, live, ever, key, q);
    HoldsSplit(live, key);
    if key !in live {
      assert live - {key} == live;
    } else if path <= q {
      assert path == q || path < q;
    } else {
      assert View(live - {key}, ever, q) == View(live, ever, q);
    }
  }

  lemma RemoveHeldAbove(root: Node, live: map<string, string>, ever: set<Path>, key: string, q: Path)
    requires Refines(root, live, ever)
    ensures HeldAbove(live - {key}, q) ==> HeldAbove(live, q)
    ensures HeldAbove(live, q) && !(Split(key, '/') < q) ==> HeldAbove(live - {key}, q)
    ensures Holds(live, Split(key, '/')) && Split(key, '/') <= q ==> !HeldAbove(live - {key}, q)
  {
    hide Split, Join, Holds, IsDir;
    var path := Split(key, '/');
    forall p: Path | p < q
      ensures Holds(live - {key}, p) ==> Holds(live, p) && (Holds(live, path) && path <= q ==> false)
      ensures Holds(live, p) && p != path ==> Holds(live - {key}, p)
    {
      RemoveHolds(live, key, p);
      if Holds(live, p) && Holds(live, path) && p != path && path <= q {
        Comparable(p, path, q);
        assert At(root, p) == View(live, ever, p) && At(root, path) == View(live, ever, path);
        if p < path {
          Above(root, p, path);
        } else {
          Above(root, path, p);
        }
      }
    }
  }

  lemma Comparable(p: Path, r: Path, q: Path)
    requires p <= q && r <= q && p != r
    ensures p < r || r < p
  {
    assert q[..|p|] == p && q[..|r|] == r;
    assert |p| < |r| ==> r[..|p|] == q[..|p|];
    assert |r| < |p| ==> p[..|r|] == q[..|r|];
  }

  /** A removal that succeeds drops its key and nothing else; it fails exactly at directories and below live keys. */
  lemma RemoveRefines(root: Node, live: map<string, string>, ever: set<Path>, key: string)
    requires Refines(root, live, ever)
    ensures var path := Split(key, '/');
            RemoveFile(root, path).None? <==> HeldAbove(live, path) || IsDir(ever, path)
    ensures RemoveFile(root, Split(key, '/')).Some? ==>
            Refines(RemoveFile(root, Split(key, '/')).value, live - {key}, ever)
  {
    hide Split, Join, Holds, IsDir, HeldAbove, RemoveFile;
    var path := Split(key, '/');
    RemoveSees(root, path, []);
    assert At(root, path) == View(live, ever, path);
    BlockedMeans(root, live, ever, path);
    if RemoveFile(root, path).Some? {
      var next := RemoveFile(root, path).value;
      forall q ensures At(next, q) == View(live - {key}, ever, q) && (Holds(live - {key}, q) ==> !IsDir(ever, q)) {
        RemoveSees(root, path, q);
        RemoveAt(root, live, ever, key, q);
      }
    }
  }

  /** Nothing is live below a live key, nor a directory. */
  lemma BlockedMeans(root: Node, live: map<string, string>, ever: set<Path>, q: Path)
    requires Refines(root, live, ever)
    ensures HeldAbove(live, q) ==> At(root, q).Blocked? && !IsDir(ever, q) && !Holds(live, q)
  {
    hide Split, Join, Holds, IsDir;
    if HeldAbove(live, q) {
      var p :| Holds(live, p) && p < q;
      assert At(root, p) == View(live, ever, p) && At(root, q) == View(live, ever, q);
      Above(root, p, q);
    }
  }

  // Listing

  function KeysOf(paths: seq<Path>): (r: seq<string>)
    ensures |r| == |paths|
    ensures forall i :: 0 <= i < |r| ==> r[i] == Join(paths[i], '/')
  {
    seq(|paths|, i requires 0 <= i < |paths| => Join(paths[i], '/'))
  }

  /** The walk meets every live key once and nothing else. */
  lemma WalkLists(root: Node, live: map<string, string>, ever: set<Path>)
    requires Refines(root, live, ever)
    ensures var keys := KeysOf(Walk(root.kids, []));
            NoRepeats(keys) && forall k :: k in keys <==> k in live
  {
    hide Split, Join, IsDir, HeldAbove, Walk;
    var paths := Walk(root.kids, []);
    var keys := KeysOf(paths);
    WalkOnce(root.kids, []);
    forall p ensures p in paths <==> Holds(live, p) {
      WalkFinds(root.kids, [], p);
      assert p[..0] == [] && p[0..] == p;
      assert At(root, p) == View(live, ever, p);
      RootIsDir(ever);
    }
    forall i, j | 0 <= i < j < |keys| ensures keys[i] != keys[j] {
      assert paths[i] in paths && paths[j] in paths;
    }
    forall k ensures k in keys <==> k in live {
      HoldsSplit(live, k);
      if k in live {
        var i :| 0 <= i < |paths| && paths[i] == Split(k, '/');
        assert keys[i] == k;
      }
      if k in keys {
        var i :| 0 <= i < |keys| && keys[i] == k;
        assert paths[i] in paths;
      }
    }
  }

  lemma {:induction false} FilterOnce(s: seq<string>, keep: string -> bool)
    requires NoRepeats(s)
    ensures NoRepeats(Filter(s, keep))
  {
    if s != [] {
      FilterOnce(s[1..], keep);
      assert s[0] !in Filter(s[1..], keep);
    }
  }

  datatype Reply = Stored | Removed | Found(body: string) | NotFound | BadRequest

  class Gateway {
    const base: Path
    const decode: string -> Option<string>
    const less: Order
    /** What is below the base directory. */
    var root: Node
    /** The store as clients see it, and the paths of every put that succeeded. */
    ghost var live: map<string, string>
    ghost var ever: set<Path>

    ghost predicate Valid()
      reads this
    {
      StrictTotal(less) && Refines(root, live, ever) && forall k :: k in live ==> Storable(k)
    }

    constructor (base: Path, decode: string -> Option<string>, less: Order)
      requires StrictTotal(less)
      ensures Valid() && live == map[] && ever == {}
      ensures this.base == base && this.decode == decode && this.less == less
    {
      this.base, this.decode, this.less := base, decode, less;
      root, live, ever := Dir(Nil), map[], {};
      new;
      EmptyRefines();
    }

    /** The path below the base directory that a request's key stands for. */
    function Locate(encoded: Option<string>): (path: Option<Path>)
      ensures path == if Routed(decode, encoded).None? then None else Some(Split(Routed(decode, encoded).value, '/'))
    {
      hide Split, Resolve, RelativeTo, Join, IsRelative;
      var key := SanitizeObjectKey(decode, encoded);
      if key.None? then None
      else
        KeyPath(base, key.value);
        var target := ObjectPath(base, key.value);
        if target.None? then None
        else
          assert (base + Split(key.value, '/'))[|base|..] == Split(key.value, '/');
          Some(target.value[|base|..])
    }

    /**
     A put stores the body under the key, or is refused, for a bad key, below a live key or at a directory, and changes
     nothing.
     */
    method PutObject(encoded: Option<string>, body: string) returns (reply: Reply)
      requires Valid()
      modifies this
      ensures Valid()
      ensures var key := Routed(decode, encoded);
              if key.None? || HeldAbove(old(live), Split(key.value, '/')) || IsDir(old(ever), Split(key.value, '/'))
              then reply == BadRequest && live == old(live) && ever == old(ever) && root == old(root)
              else
                && reply == Stored && live == old(live)[key.value := body]
                && ever == old(ever) + {Split(key.value, '/')}
    {
      hide StrictTotal, Refines, Split, Storable, HeldAbove, IsDir, SanitizeObjectKey;
      var path := Locate(encoded);
      if path.None? {
        return BadRequest;
      }
      ghost var key := Routed(decode, encoded).value;
      PutFailsWhen(root, live, ever, path.value, body);
      var made := MakeDirs(root, path.value[..|path.value| - 1]);
      if made.None? {
        return BadRequest;
      }
      ghost var before := root;
      root := made.value;
      var written := WriteFile(root, path.value, body);
      if written.None? {
        return BadRequest;
      }
      PutRefines(before, live, ever, key, body);
      root := written.value;
      live := live[key := body];
      ever := ever + {path.value};
      reply := Stored;
    }

    /** A get answers with the body last put, and tells a missing object from a request that can have none. */
    method GetObject(encoded: Option<string>) returns (reply: Reply)
      requires Valid()
      ensures var key := Routed(decode, encoded);
              reply == if key.None? then BadRequest
                       else if key.value in live then Found(live[key.value])
                       else
                         var path := Split(key.value, '/');
                         if HeldAbove(live, path) || IsDir(ever, path) then BadRequest else NotFound
    {
      hide StrictTotal, Split, Join, Storable, HeldAbove, IsDir, SanitizeObjectKey;
      var path := Locate(encoded);
      if path.None? {
        return BadRequest;
      }
      HoldsSplit(live, Routed(decode, encoded).value);
      BlockedMeans(root, live, ever, path.value);
      match At(root, path.value)
      case FileHere(body) => reply := Found(body);
      case Missing => reply := NotFound;
      case _ => reply := BadRequest;
    }

    /** A delete removes the key; that there was none is no error, a directory or a live key above is. */
    method DeleteObject(encoded: Option<string>) returns (reply: Reply)
      requires Valid()
      modifies `root, `live
      ensures Valid()
      ensures var key := Routed(decode, encoded);
              if key.None? || HeldAbove(old(live), Split(key.value, '/')) || IsDir(ever, Split(key.value, '/'))
              then reply == BadRequest && live == old(live) && root == old(root)
              else reply == Removed && live == old(live) - {key.value}
    {
      hide StrictTotal, Refines, Split, Storable, HeldAbove, IsDir, SanitizeObjectKey;
      var path := Locate(encoded);
      if path.None? {
        return BadRequest;
      }
      ghost var key := Routed(decode, encoded).value;
      RemoveRefines(root, live, ever, key);
      var removed := RemoveFile(root, path.value);
      if removed.None? {
        return BadRequest;
      }
      root := removed.value;
      live := live - {key};
      reply := Removed;
    }

    /** The live keys with the prefix, each once, in order. */
    method ListObjects(prefix: string) returns (keys: seq<string>)
      requires Valid()
      ensures Ascending(less, keys)
      ensures forall k :: k in keys <==> k in live && prefix <= k
    {
      hide StrictTotal, Walk, Join;
      WalkLists(root, live, ever);
      var all := KeysOf(Walk(root.kids, []));
      var matching := Filter(all, (k: string) => prefix <= k);
      FilterOnce(all, (k: string) => prefix <= k);
      SortSorts(less, matching);
      keys := Sort(less, matching);
    }
  }

  lemma EmptyRefines()
    ensures Refines(Dir(Nil), map[], {})
  {
    forall q ensures At(Dir(Nil), q) == View(map[], {}, q) {
      if q != [] {
        NothingIn(q);
      }
    }
  }
}
