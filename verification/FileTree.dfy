/** A directory tree and the file-system calls the object store makes on it. */
module FileTree {
  import opened Wrappers
  import opened Lists

  datatype Node = File(body: string) | Dir(kids: Kids)

  /** The entries of a directory, no name twice. */
  datatype Kids = Nil | Kid(name: string, node: Node, rest: Kids)

  type Path = seq<string>

  function Find(kids: Kids, name: string): Option<Node> {
    if kids.Nil? then None else if kids.name == name then Some(kids.node) else Find(kids.rest, name)
  }

  function Set(kids: Kids, name: string, node: Node): Kids {
    if kids.Nil? then Kid(name, node, Nil)
    else if kids.name == name then Kid(name, node, kids.rest)
    else Kid(kids.name, kids.node, Set(kids.rest, name, node))
  }

  function Remove(kids: Kids, name: string): Kids {
    if kids.Nil? then Nil
    else if kids.name == name then kids.rest
    else Kid(kids.name, kids.node, Remove(kids.rest, name))
  }

  predicate Distinct(node: Node) {
    node.Dir? ==> DistinctKids(node.kids)
  }

  predicate DistinctKids(kids: Kids) {
    kids.Kid? ==> Find(kids.rest, kids.name).None? && Distinct(kids.node) && DistinctKids(kids.rest)
  }

  /** What opening a path finds: nothing (ENOENT), a file on the way (ENOTDIR), a file, or a directory (EISDIR). */
  datatype Sight = Missing | Blocked | FileHere(body: string) | DirHere

  function At(node: Node, path: Path): Sight
    decreases |path|
  {
    if path == [] then (if node.File? then FileHere(node.body) else DirHere)
    else if node.File? then Blocked
    else var kid := Find(node.kids, path[0]); if kid.None? then Missing else At(kid.value, path[1..])
  }

  /** `mkdir` with `recursive`: fails on a file at the path or on the way. */
  function MakeDirs(node: Node, path: Path): Option<Node>
    decreases |path|
  {
    if node.File? then None
    else if path == [] then Some(node)
    else
      var kid := Find(node.kids, path[0]);
      var made := MakeDirs(if kid.Some? then kid.value else Dir(Nil), path[1..]);
      if made.None? then None else Some(Dir(Set(node.kids, path[0], made.value)))
  }

  /** `writeFile`: needs the parent directory, and no directory at the path itself. */
  function WriteFile(node: Node, path: Path, body: string): Option<Node>
    decreases |path|
  {
    if node.File? || path == [] then None
    else
      var kid := Find(node.kids, path[0]);
      if |path| == 1 then
        if kid.Some? && kid.value.Dir? then None else Some(Dir(Set(node.kids, path[0], File(body))))
      else if kid.None? then None
      else
        var written := WriteFile(kid.value, path[1..], body);
        if written.None? then None else Some(Dir(Set(node.kids, path[0], written.value)))
  }

  /** `rm` with `force`: a missing file is no error, a directory or a file on the way is one. */
  function RemoveFile(node: Node, path: Path): Option<Node>
    decreases |path|
  {
    if node.File? || path == [] then None
    else
      var kid := Find(node.kids, path[0]);
      if kid.None? then Some(node)
      else if |path| == 1 then
        if kid.value.Dir? then None else Some(Dir(Remove(node.kids, path[0])))
      else
        var removed := RemoveFile(kid.value, path[1..]);
        if removed.None? then None else Some(Dir(Set(node.kids, path[0], removed.value)))
  }

  /** The paths of all files, walking the directories in order. */
  function Walk(kids: Kids, at: Path): seq<Path> {
    if kids.Nil? then []
    else
      var here := at + [kids.name];
      (match kids.node
       case File(_) => [here]
       case Dir(inner) => Walk(inner, here))
      + Walk(kids.rest, at)
  }

  // Directory entries

  lemma {:induction false} FindSet(kids: Kids, name: string, node: Node, other: string)
    ensures Find(Set(kids, name, node), other) == if other == name then Some(node) else Find(kids, other)
  {
    if kids.Kid? && kids.name != name {
      FindSet(kids.rest, name, node, other);
    }
  }

  lemma {:induction false} SetSame(kids: Kids, name: string)
    requires Find(kids, name).Some?
    ensures Set(kids, name, Find(kids, name).value) == kids
  {
    if kids.name != name {
      SetSame(kids.rest, name);
    }
  }

  lemma {:induction false} SetDistinct(kids: Kids, name: string, node: Node)
    requires DistinctKids(kids) && Distinct(node)
    ensures DistinctKids(Set(kids, name, node))
  {
    if kids.Kid? && kids.name != name {
      SetDistinct(kids.rest, name, node);
      FindSet(kids.rest, name, node, kids.name);
    }
  }

  lemma {:induction false} FindRemove(kids: Kids, name: string, other: string)
    requires DistinctKids(kids)
    ensures Find(Remove(kids, name), other) == if other == name then None else Find(kids, other)
    ensures DistinctKids(Remove(kids, name))
  {
    if kids.Kid? && kids.name != name {
      FindRemove(kids.rest, name, other);
      FindRemove(kids.rest, name, kids.name);
    }
  }

  lemma {:induction false} FoundDistinct(kids: Kids, name: string)
    requires DistinctKids(kids) && Find(kids, name).Some?
    ensures Distinct(Find(kids, name).value)
  {
    if kids.name != name {
      FoundDistinct(kids.rest, name);
    }
  }

  // What the calls do to every path

  lemma AtSet(kids: Kids, name: string, node: Node, q: Path)
    ensures At(Dir(Set(kids, name, node)), q) ==
            if q != [] && q[0] == name then At(node, q[1..]) else At(Dir(kids), q)
  {
    if q != [] {
      FindSet(kids, name, node, q[0]);
    }
  }

  /** How `q` looks once `path` holds a file: the file itself, its directories, and nothing below it. */
  function Written(before: Sight, path: Path, body: string, q: Path): Sight {
    if q == path then FileHere(body) else if q < path then DirHere else if path < q then Blocked else before
  }

  /** Making the parent directories fails exactly when one of them is a file. */
  ghost predicate FileAbove(node: Node, path: Path) {
    exists i :: 0 < i < |path| && At(node, path[..i]).FileHere?
  }

  /** The entry a path descends into, an empty directory if it is still to be made. */
  function Entry(kids: Kids, name: string): Node {
    var kid := Find(kids, name);
    if kid.Some? then kid.value else Dir(Nil)
  }

  lemma EntryDistinct(kids: Kids, name: string)
    requires DistinctKids(kids)
    ensures Distinct(Entry(kids, name))
  {
    if Find(kids, name).Some? {
      FoundDistinct(kids, name);
    }
  }

  lemma NothingIn(q: Path)
    requires q != []
    ensures At(Dir(Nil), q) == Missing
  {
  }

  lemma AtEntry(kids: Kids, path: Path, i: nat)
    requires 0 < i <= |path|
    ensures At(Dir(kids), path[..i]) ==
            if Find(kids, path[0]).None? then Missing else At(Entry(kids, path[0]), path[1..][..i - 1])
  {
    assert path[..i][0] == path[0] && path[..i][1..] == path[1..][..i - 1];
  }

  lemma FileAboveEntry(kids: Kids, path: Path)
    requires |path| >= 2
    ensures FileAbove(Dir(kids), path) <==> Entry(kids, path[0]).File? || FileAbove(Entry(kids, path[0]), path[1..])
  {
    hide Find;
    var node, kid, rest := Dir(kids), Entry(kids, path[0]), path[1..];
    if FileAbove(node, path) {
      var i :| 0 < i < |path| && At(node, path[..i]).FileHere?;
      AtEntry(kids, path, i);
      assert i > 1 ==> At(kid, rest[..i - 1]).FileHere?;
    }
    if kid.File? {
      AtEntry(kids, path, 1);
      assert At(node, path[..1]).FileHere?;
    }
    if FileAbove(kid, rest) {
      var i :| 0 < i < |rest| && At(kid, rest[..i]).FileHere?;
      NothingIn(rest[..i]);
      AtEntry(kids, path, i + 1);
      assert At(node, path[..i + 1]).FileHere?;
    }
  }

  /** Creating the parents and writing the file, as one function. */
  function Put(node: Node, path: Path, body: string): Option<Node>
    requires path != []
  {
    var made := MakeDirs(node, path[..|path| - 1]);
    if made.None? then None else WriteFile(made.value, path, body)
  }

  lemma PutStep(kids: Kids, path: Path, body: string)
    requires |path| >= 2
    ensures var kid := Entry(kids, path[0]);
            var made := MakeDirs(Dir(kids), path[..|path| - 1]);
            var inner := MakeDirs(kid, path[1..][..|path| - 2]);
            && made == (if inner.None? then None else Some(Dir(Set(kids, path[0], inner.value))))
            && Put(Dir(kids), path, body) ==
               (if inner.None? then None
                else
                  var written := WriteFile(inner.value, path[1..], body);
                  if written.None? then None
                  else Some(Dir(Set(Set(kids, path[0], inner.value), path[0], written.value))))
  {
    var inner := MakeDirs(Entry(kids, path[0]), path[1..][..|path| - 2]);
    assert path[..|path| - 1][1..] == path[1..][..|path| - 2];
    if inner.Some? {
      FindSet(kids, path[0], inner.value, path[0]);
    }
  }

  /** When a put fails, and that it then leaves the tree as it was, directories included. */
  lemma {:induction false} PutFails(node: Node, path: Path, body: string)
    requires node.Dir? && path != []
    ensures MakeDirs(node, path[..|path| - 1]).None? <==> FileAbove(node, path)
    ensures Put(node, path, body).None? <==> FileAbove(node, path) || At(node, path).DirHere?
    ensures var made := MakeDirs(node, path[..|path| - 1]);
            made.Some? && Put(node, path, body).None? ==> made.value == node
    decreases |path|
  {
    var kids, name := node.kids, path[0];
    if |path| > 1 {
      var kid := Entry(kids, name);
      PutStep(kids, path, body);
      FileAboveEntry(kids, path);
      assert path[1..][..|path[1..]| - 1] == path[1..][..|path| - 2];
      if kid.Dir? {
        PutFails(kid, path[1..], body);
        if Find(kids, name).Some? {
          SetSame(kids, name);
        }
      }
    }
  }

  /** A put that succeeds changes exactly what is seen at, above and below its path. */
  lemma {:induction false} PutSees(node: Node, path: Path, body: string, q: Path)
    requires Distinct(node) && node.Dir? && path != [] && Put(node, path, body).Some?
    ensures Put(node, path, body).value.Dir?
    ensures Distinct(Put(node, path, body).value)
    ensures At(Put(node, path, body).value, q) == Written(At(node, q), path, body, q)
    decreases |path|
  {
    var kids, name := node.kids, path[0];
    if |path| == 1 {
      SetDistinct(kids, name, File(body));
      AtSet(kids, name, File(body), q);
      PrefixTail(q, path);
    } else {
      var kid := Entry(kids, name);
      PutStep(kids, path, body);
      assert path[1..][..|path[1..]| - 1] == path[1..][..|path| - 2];
      var made := MakeDirs(kid, path[1..][..|path| - 2]);
      assert kid.Dir?;
      EntryDistinct(kids, name);
      var next := Put(kid, path[1..], body).value;
      PutSees(kid, path[1..], body, if q == [] then [] else q[1..]);
      MadeDistinct(kid, path[1..][..|path| - 2]);
      SetDistinct(kids, name, made.value);
      SetDistinct(Set(kids, name, made.value), name, next);
      AtSet(Set(kids, name, made.value), name, next, q);
      AtSet(kids, name, made.value, q);
      PrefixTail(q, path);
    }
  }

  lemma {:induction false} MadeDistinct(node: Node, path: Path)
    requires Distinct(node) && MakeDirs(node, path).Some?
    ensures Distinct(MakeDirs(node, path).value)
    decreases |path|
  {
    if path != [] {
      EntryDistinct(node.kids, path[0]);
      MadeDistinct(Entry(node.kids, path[0]), path[1..]);
      SetDistinct(node.kids, path[0], MakeDirs(Entry(node.kids, path[0]), path[1..]).value);
    }
  }

  lemma PrefixTail(q: Path, path: Path)
    requires path != []
    ensures q != [] && q[0] == path[0] ==>
              && (q == path <==> q[1..] == path[1..])
              && (q < path <==> q[1..] < path[1..]) && (path < q <==> path[1..] < q[1..])
    ensures q != [] && q[0] != path[0] ==> q != path && !(q < path) && !(path < q)
    ensures q == [] ==> q < path && !(path < q)
  {
    if q != [] && q[0] == path[0] {
      assert q == [q[0]] + q[1..] && path == [path[0]] + path[1..];
    }
  }

  /**
   Removing fails on directories and under files; otherwise the file, if there, is gone, and what it blocked is missing.
   */
  lemma {:induction false} RemoveSees(node: Node, path: Path, q: Path)
    requires Distinct(node) && node.Dir? && path != []
    ensures RemoveFile(node, path).None? <==> At(node, path).DirHere? || At(node, path).Blocked?
    ensures RemoveFile(node, path).Some? ==>
              && RemoveFile(node, path).value.Dir? && Distinct(RemoveFile(node, path).value)
              && At(RemoveFile(node, path).value, q) == if path <= q
              && At(node, path).FileHere? then Missing else At(node, q)
    decreases |path|
  {
    var kids, name := node.kids, path[0];
    PrefixTail(q, path);
    if Find(kids, name).Some? {
      var kid := Find(kids, name).value;
      FoundDistinct(kids, name);
      if |path| == 1 {
        FindRemove(kids, name, if q == [] then "" else q[0]);
      } else if kid.Dir? {
        RemoveSees(kid, path[1..], if q == [] then [] else q[1..]);
        var removed := RemoveFile(kid, path[1..]);
        if removed.Some? {
          SetDistinct(kids, name, removed.value);
          AtSet(kids, name, removed.value, q);
        }
      }
    }
  }

  // Walking

  lemma {:induction false} WalkFinds(kids: Kids, at: Path, p: Path)
    requires DistinctKids(kids)
    ensures p in Walk(kids, at) <==> |p| > |at| && p[..|at|] == at && At(Dir(kids), p[|at|..]).FileHere?
    decreases kids
  {
    if kids.Kid? {
      var here := at + [kids.name];
      WalkFinds(kids.rest, at, p);
      if |p| > |at| && p[..|at|] == at {
        var q := p[|at|..];
        assert p == at + q;
        if q[0] == kids.name {
          assert p[..|here|] == here && p[|here|..] == q[1..];
          if |q| == 1 {
            assert p == here && q[1..] == [];
          }
        } else {
          assert p[..|here|][|at|] == q[0];
        }
      }
      if kids.node.Dir? {
        WalkFinds(kids.node.kids, here, p);
      }
      if |p| >= |here| && p[..|here|] == here {
        assert p[..|at|] == here[..|at|] == at;
      }
    }
  }

  lemma Disjoint(first: seq<Path>, later: seq<Path>)
    requires NoRepeats(first) && NoRepeats(later) && forall p :: p in first ==> p !in later
    ensures NoRepeats(first + later)
  {
    var s, n := first + later, |first|;
    forall i, j | 0 <= i < j < |s| ensures s[i] != s[j] {
      if j < n {
        assert s[i] == first[i] && s[j] == first[j];
      } else if i < n {
        assert s[i] == first[i] && s[i] in first;
        assert s[j] == later[j - n] && s[j] in later;
      } else {
        assert s[i] == later[i - n] && s[j] == later[j - n];
      }
    }
  }

  lemma {:induction false} WalkOnce(kids: Kids, at: Path)
    requires DistinctKids(kids)
    ensures NoRepeats(Walk(kids, at))
    decreases kids
  {
    if kids.Kid? {
      var here := at + [kids.name];
      var first := match kids.node case File(_) => [here] case Dir(inner) => Walk(inner, here);
      var later := Walk(kids.rest, at);
      WalkOnce(kids.rest, at);
      if kids.node.Dir? {
        WalkOnce(kids.node.kids, here);
      }
      forall p | p in first ensures p !in later {
        WalkFinds(kids.rest, at, p);
        if kids.node.Dir? {
          WalkFinds(kids.node.kids, here, p);
        }
        assert |p| >= |here| && p[..|here|] == here;
        assert p[|at|] == p[..|here|][|at|] == kids.name;
      }
      Disjoint(first, later);
    }
  }
}
