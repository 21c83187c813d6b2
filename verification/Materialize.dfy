/**
 Copying a source tree with its links materialised (desktop/scripts/build_sidecar.py, `_copy_materialized`).

 The file system is a finite graph of files, directories and links; identities are real paths. A link is
 replaced by what it resolves to, and so is a checked-out link placeholder, a small file whose text is a path
 that resolves. Directories on the way down are remembered to detect cycles.
 */
module Materialize {
  import opened Wrappers

  type Id = nat
  type Path = seq<string>

  datatype Node =
    | File(content: string, placeholder: Option<Id>)
    | Directory(children: map<string, Id>)
    | Link(target: Id)

  type FileSystem = map<Id, Node>

  datatype Copied = CopiedDirectory | CopiedFile(content: string)

  type Staged = map<Path, Copied>

  /** `id` exists and resolves in one step to something that is not a link. */
  ghost predicate Resolves(fs: FileSystem, id: Id) {
    && id in fs
    && (fs[id].Link? ==> fs[id].target in fs && !fs[fs[id].target].Link?)
    && (fs[id].File? && fs[id].placeholder.Some? ==>
          fs[id].placeholder.value in fs && !fs[fs[id].placeholder.value].Link?)
  }

  /** No dangling link anywhere. */
  ghost predicate Sound(fs: FileSystem) {
    && (forall id :: id in fs ==> Resolves(fs, id))
    && (forall id, name :: id in fs && fs[id].Directory? && name in fs[id].children ==> fs[id].children[name] in fs)
  }

  function Resolve(fs: FileSystem, id: Id): (r: Id)
    requires Sound(fs) && id in fs
    ensures r in fs && !fs[r].Link?
  {
    assert Resolves(fs, id);
    match fs[id]
    case Link(target) => target
    case File(_, Some(target)) => target
    case _ => id
  }

  // ---------- reference: following names through links ----------

  /** What a reader finds under `names` when every link on the way is followed. */
  ghost function Walk(fs: FileSystem, id: Id, names: Path): Option<Copied>
    requires Sound(fs) && id in fs
    decreases |names|
  {
    var node := fs[Resolve(fs, id)];
    if names == [] then Some(if node.Directory? then CopiedDirectory else CopiedFile(node.content))
    else if node.Directory? && names[0] in node.children then Walk(fs, node.children[names[0]], names[1..])
    else None
  }

  /** What is copied for a node that is neither a link nor a placeholder. */
  ghost function Content(node: Node): Option<Copied>
    requires !node.Link?
  {
    Some(if node.Directory? then CopiedDirectory else CopiedFile(node.content))
  }

  /** A link and a placeholder stand for what they point to, everything else for itself; below it names are followed. */
  lemma WalkReads(fs: FileSystem, id: Id, names: Path)
    requires Sound(fs) && id in fs
    ensures Resolves(fs, id)
    ensures var seen := match fs[id] case Link(target) => target case File(_, Some(target)) => target case _ => id;
            && Walk(fs, id, []) == Content(fs[seen])
            && (names != [] && fs[seen].Directory? && names[0] in fs[seen].children ==>
                  Walk(fs, id, names) == Walk(fs, fs[seen].children[names[0]], names[1..]))
            && (names != [] && !(fs[seen].Directory? && names[0] in fs[seen].children) ==> Walk(fs, id, names) == None)
  {
  }

  /** Each directory of the chain has an entry that resolves to the next one. */
  ghost predicate Chain(fs: FileSystem, ds: seq<Id>)
    requires Sound(fs)
  {
    && ds != []
    && (forall i :: 0 <= i < |ds| ==> ds[i] in fs && fs[ds[i]].Directory?)
    && (forall i :: 0 <= i < |ds| - 1 ==> Enters(fs, ds[i], ds[i + 1]))
  }

  ghost predicate Enters(fs: FileSystem, d: Id, e: Id)
    requires Sound(fs)
  {
    d in fs && fs[d].Directory? && exists name :: name in fs[d].children && Resolve(fs, fs[d].children[name]) == e
  }

  ghost predicate Repeats(ds: seq<Id>) {
    exists i :: 0 <= i < |ds| - 1 && ds[i] == ds[|ds| - 1]
  }

  /** From the source a chain of directories leads back into itself. */
  ghost predicate ReachesCycle(fs: FileSystem, source: Id)
    requires Sound(fs) && source in fs
  {
    exists ds :: Chain(fs, ds) && ds[0] == Resolve(fs, source) && Repeats(ds)
  }

  /** Some chain from `source` ends in one of the ancestors or in itself. */
  ghost predicate Trapped(fs: FileSystem, source: Id, ancestors: seq<Id>)
    requires Sound(fs) && source in fs
  {
    exists ds :: Chain(fs, ds) && ds[0] == Resolve(fs, source) && (ds[|ds| - 1] in ancestors || Repeats(ds))
  }

  lemma TrappedDown(fs: FileSystem, source: Id, ancestors: seq<Id>, name: string)
    requires Sound(fs) && source in fs
    requires var d := Resolve(fs, source); fs[d].Directory? && name in fs[d].children
    requires Trapped(fs, fs[Resolve(fs, source)].children[name], ancestors + [Resolve(fs, source)])
    ensures Trapped(fs, source, ancestors)
  {
    var d := Resolve(fs, source);
    var child := fs[d].children[name];
    var ds :| Chain(fs, ds) && ds[0] == Resolve(fs, child) && (ds[|ds| - 1] in ancestors + [d] || Repeats(ds));
    var longer := [d] + ds;
    assert Enters(fs, d, ds[0]);
    assert Chain(fs, longer) by {
      forall i | 0 <= i < |longer| - 1 ensures Enters(fs, longer[i], longer[i + 1]) {
        if i > 0 { assert longer[i] == ds[i - 1] && longer[i + 1] == ds[i]; }
      }
    }
    if Repeats(ds) {
      var i :| 0 <= i < |ds| - 1 && ds[i] == ds[|ds| - 1];
      assert longer[i + 1] == longer[|longer| - 1];
    } else if ds[|ds| - 1] == d {
      assert longer[0] == longer[|longer| - 1];
    }
  }

  lemma TrappedUp(fs: FileSystem, source: Id, ancestors: seq<Id>) returns (name: string)
    requires Sound(fs) && source in fs && Resolve(fs, source) !in ancestors
    requires Trapped(fs, source, ancestors)
    ensures var d := Resolve(fs, source);
            && fs[d].Directory? && name in fs[d].children
            && Trapped(fs, fs[d].children[name], ancestors + [d])
  {
    var d := Resolve(fs, source);
    var ds :| Chain(fs, ds) && ds[0] == d && (ds[|ds| - 1] in ancestors || Repeats(ds));
    assert |ds| >= 2 && Enters(fs, ds[0], ds[1]);
    name :| name in fs[d].children && Resolve(fs, fs[d].children[name]) == ds[1];
    var rest := ds[1..];
    assert Chain(fs, rest) by {
      forall i | 0 <= i < |rest| - 1 ensures Enters(fs, rest[i], rest[i + 1]) {
        assert Enters(fs, ds[i + 1], ds[i + 2]);
      }
    }
    if Repeats(ds) {
      var i :| 0 <= i < |ds| - 1 && ds[i] == ds[|ds| - 1];
      if i > 0 {
        assert rest[i - 1] == rest[|rest| - 1];
        assert Repeats(rest);
      }
    }
  }

  // ---------- the copy ----------

  ghost function At(tree: Staged, p: Path): Option<Copied> {
    if p in tree then Some(tree[p]) else None
  }

  /** Below `target` the tree holds exactly what a walk of the source finds; elsewhere it is as before. */
  ghost predicate Unfolded(fs: FileSystem, source: Id, target: Path, before: Staged, after: Staged)
    requires Sound(fs) && source in fs
  {
    forall p :: At(after, p) == if target <= p then Walk(fs, source, p[|target|..]) else At(before, p)
  }

  /** The same, with only the children in `done` copied so far. */
  ghost predicate PartlyUnfolded(fs: FileSystem, source: Id, target: Path, before: Staged, after: Staged,
                                 done: set<string>)
    requires Sound(fs) && source in fs
  {
    forall p :: At(after, p) ==
                if !(target <= p) then At(before, p)
                else if p == target then Some(CopiedDirectory)
                else if p[|target|] in done then Walk(fs, source, p[|target|..])
                else None
  }

  ghost function Unvisited(fs: FileSystem, ancestors: seq<Id>): set<Id> {
    fs.Keys - (set a | a in ancestors)
  }

  /**
   Terminates on every graph; fails exactly when the source, below the given ancestors, runs into a cycle; and
   otherwise writes the link-free unfolding of the source under `target`.
   */
  method CopyMaterialized(fs: FileSystem, source: Id, target: Path, ancestors: seq<Id>, tree: Staged)
    returns (r: Result<Staged, Id>)
    requires Sound(fs) && source in fs
    requires forall a :: a in ancestors ==> a in fs && fs[a].Directory?
    requires forall p :: p in tree ==> !(target <= p)
    ensures r.Err? <==> Trapped(fs, source, ancestors)
    ensures r.Ok? ==> Unfolded(fs, source, target, tree, r.value)
    decreases Unvisited(fs, ancestors)
  {
    var resolved := Resolve(fs, source);
    if resolved in ancestors {
      assert Chain(fs, [resolved]);
      return Err(source);
    }
    if fs[resolved].Directory? {
      assert resolved in Unvisited(fs, ancestors) && resolved !in Unvisited(fs, ancestors + [resolved]);
      var copied := tree[target := CopiedDirectory];
      var todo := fs[resolved].children.Keys;
      while todo != {}
        invariant todo <= fs[resolved].children.Keys
        invariant PartlyUnfolded(fs, source, target, tree, copied, fs[resolved].children.Keys - todo)
        invariant forall name :: name in fs[resolved].children.Keys - todo ==>
                    !Trapped(fs, fs[resolved].children[name], ancestors + [resolved])
        decreases todo
      {
        var name :| name in todo;
        ghost var done := fs[resolved].children.Keys - todo;
        todo := todo - {name};
        var child := fs[resolved].children[name];
        RoomForChild(fs, source, target, tree, copied, done, name);
        var result := CopyMaterialized(fs, child, target + [name], ancestors + [resolved], copied);
        if result.Err? {
          TrappedDown(fs, source, ancestors, name);
          return Err(result.error);
        }
        ChildUnfolded(fs, source, target, tree, copied, result.value, done, name);
        copied := result.value;
        assert fs[resolved].children.Keys - todo == done + {name};
      }
      if Trapped(fs, source, ancestors) {
        var name := TrappedUp(fs, source, ancestors);
        assert false;
      }
      return Ok(copied);
    }
    if Trapped(fs, source, ancestors) {
      var name := TrappedUp(fs, source, ancestors);
      assert false;
    }
    r := Ok(tree[target := CopiedFile(fs[resolved].content)]);
    FileUnfolded(fs, source, target, tree);
  }

  lemma FileUnfolded(fs: FileSystem, source: Id, target: Path, before: Staged)
    requires Sound(fs) && source in fs && fs[Resolve(fs, source)].File?
    requires forall p :: p in before ==> !(target <= p)
    ensures Unfolded(fs, source, target, before, before[target := CopiedFile(fs[Resolve(fs, source)].content)])
  {
    var after := before[target := CopiedFile(fs[Resolve(fs, source)].content)];
    forall p ensures At(after, p) == if target <= p then Walk(fs, source, p[|target|..]) else At(before, p) {
      if target <= p && p != target {
        assert p[|target|..] != [];
      }
    }
  }

  lemma RoomForChild(fs: FileSystem, source: Id, target: Path, before: Staged, copied: Staged, done: set<string>,
                     name: string)
    requires Sound(fs) && source in fs && name !in done
    requires PartlyUnfolded(fs, source, target, before, copied, done)
    ensures forall p :: p in copied ==> !(target + [name] <= p)
  {
    forall p | target + [name] <= p ensures p !in copied {
      assert At(copied, p) == None;
    }
  }

  lemma ChildUnfolded(fs: FileSystem, source: Id, target: Path, before: Staged, copied: Staged, after: Staged,
                      done: set<string>, name: string)
    requires Sound(fs) && source in fs && name !in done
    requires var d := Resolve(fs, source); fs[d].Directory? && name in fs[d].children
    requires PartlyUnfolded(fs, source, target, before, copied, done)
    requires Unfolded(fs, fs[Resolve(fs, source)].children[name], target + [name], copied, after)
    ensures PartlyUnfolded(fs, source, target, before, after, done + {name})
  {
    var child := fs[Resolve(fs, source)].children[name];
    forall p
      ensures At(after, p) ==
              if !(target <= p) then At(before, p)
              else if p == target then Some(CopiedDirectory)
              else if p[|target|] in done + {name} then Walk(fs, source, p[|target|..])
              else None
    {
      assert At(copied, p) == At(copied, p);
      if target <= p && p != target && p[|target|] == name {
        assert p[|target|..][1..] == p[|target| + 1..];
        assert Walk(fs, source, p[|target|..]) == Walk(fs, child, p[|target + [name]|..]);
      }
    }
  }

  /** The call made by staging: no ancestors, nothing yet under the target. */
  method Stage(fs: FileSystem, source: Id, target: Path, tree: Staged) returns (r: Result<Staged, Id>)
    requires Sound(fs) && source in fs
    requires forall p :: p in tree ==> !(target <= p)
    ensures r.Err? <==> ReachesCycle(fs, source)
    ensures r.Ok? ==> Unfolded(fs, source, target, tree, r.value)
  {
    r := CopyMaterialized(fs, source, target, [], tree);
  }
}
