/** Snapshot directories of src/decillion/vault.py: their inventory and its check. */
module SnapshotVault {
  import opened Hashing
  import opened Outcomes
  import opened SnapshotNames

  const MANIFEST: string := "decillion-manifest.json"

  /** A symbolic link is given with the contents of the regular file it leads to, if it does. */
  datatype Node = File(data: Bytes) | Symlink(leadsTo: Option<Bytes>)

  /** What `rglob` yields below a directory, in sorted order, without the directories. */
  datatype Entry = Entry(path: Path, node: Node)
  type Tree = seq<Entry>

  datatype Item = Item(path: Path, size: nat, sha: Bytes)

  datatype Manifest = Manifest(model: string, revision: string, license: string, createdAt: string,
                               total: nat, files: seq<Item>)

  /** SHA-256 and the JSON form of a manifest. */
  datatype Format = Format(sha: Hash, json: Manifest -> Bytes, parse: Bytes -> Option<Manifest>)

  ghost predicate Faithful(f: Format) { forall m :: f.parse(f.json(m)) == Some(m) }

  datatype Fault = SymlinkFound | NoManifest | Unreadable | InventoryDiffers | IdentityDiffers
                 | Empty | Full | Busy | BadName | TargetExists | Interrupted

  predicate ManifestName(path: Path) { path != [] && path[|path| - 1] == MANIFEST }

  /** The files of a snapshot in order, with their total size. Files called like the manifest are
      passed over, at any depth. */
  function Inventory(f: Format, tree: Tree): Result<(seq<Item>, nat), Fault> {
    if tree == [] then Ok(([], 0))
    else
      var e := tree[0];
      if e.node.Symlink? then Err(SymlinkFound)
      else match Inventory(f, tree[1..])
           case Err(x) => Err(x)
           case Ok((items, total)) =>
             if ManifestName(e.path) then Ok((items, total))
             else Ok(([Item(e.path, |e.node.data|, f.sha(e.node.data))] + items, |e.node.data| + total))
  }

  function Prepend(files: seq<Item>, total: nat, rest: Result<(seq<Item>, nat), Fault>)
    : Result<(seq<Item>, nat), Fault>
  {
    match rest
    case Err(x) => Err(x)
    case Ok((items, more)) => Ok((files + items, total + more))
  }

  lemma InventoryAt(f: Format, tree: Tree, i: nat, files: seq<Item>, total: nat)
    requires i < |tree|
    ensures
      Prepend(files, total, Inventory(f, tree[i..])) ==
        if tree[i].node.Symlink? then Err(SymlinkFound)
        else if ManifestName(tree[i].path) then Prepend(files, total, Inventory(f, tree[i + 1..]))
        else Prepend(files + [Item(tree[i].path, |tree[i].node.data|, f.sha(tree[i].node.data))],
                     total + |tree[i].node.data|, Inventory(f, tree[i + 1..]))
  {
    assert tree[i..][1..] == tree[i + 1..];
    if !tree[i].node.Symlink? && Inventory(f, tree[i + 1..]).Ok? {
      var item := Item(tree[i].path, |tree[i].node.data|, f.sha(tree[i].node.data));
      var items := Inventory(f, tree[i + 1..]).value.0;
      assert files + ([item] + items) == (files + [item]) + items;
    }
  }

  lemma {:induction false} InventoryFault(f: Format, tree: Tree)
    ensures Inventory(f, tree).Err? ==> Inventory(f, tree).error == SymlinkFound
  {
    if tree != [] { InventoryFault(f, tree[1..]); }
  }

  method TakeInventory(f: Format, tree: Tree) returns (r: Result<(seq<Item>, nat), Fault>)
    ensures r == Inventory(f, tree)
  {
    var files: seq<Item> := [];
    var total: nat := 0;
    assert tree[0..] == tree;
    assert Inventory(f, tree).Ok? ==> [] + Inventory(f, tree).value.0 == Inventory(f, tree).value.0;
    for i := 0 to |tree|
      invariant Inventory(f, tree) == Prepend(files, total, Inventory(f, tree[i..]))
    {
      InventoryAt(f, tree, i, files, total);
      var e := tree[i];
      if e.node.Symlink? { return Err(SymlinkFound); }
      if !ManifestName(e.path) {
        total := total + |e.node.data|;
        files := files + [Item(e.path, |e.node.data|, f.sha(e.node.data))];
      }
    }
    assert files + [] == files;
    return Ok((files, total));
  }

  function Lookup(tree: Tree, path: Path): Option<Node> {
    if tree == [] then None else if tree[0].path == path then Some(tree[0].node) else Lookup(tree[1..], path)
  }

  /** What `read_text` finds where `is_file` holds: both follow links. */
  function Readable(node: Option<Node>): Option<Bytes> {
    match node
    case None => None
    case Some(File(data)) => Some(data)
    case Some(Symlink(leadsTo)) => leadsTo
  }

  /** `verify` on one directory. */
  function Verify(f: Format, tree: Tree, model: string, revision: string): Result<Manifest, Fault> {
    match Readable(Lookup(tree, [MANIFEST]))
    case None => Err(NoManifest)
    case Some(text) =>
      match f.parse(text)
      case None => Err(Unreadable)
      case Some(m) =>
        match Inventory(f, tree)
        case Err(x) => Err(x)
        case Ok((files, total)) =>
          if files != m.files || total != m.total then Err(InventoryDiffers)
          else if m.model != model || m.revision != revision then Err(IdentityDiffers)
          else Ok(m)
  }

  // ---------------------------------------------------------------- what an inventory and a check are

  function TotalSize(tree: Tree): nat {
    if tree == [] then 0
    else (match tree[0].node case File(data) => |data| case Symlink(_) => 0) + TotalSize(tree[1..])
  }

  /** A line of the inventory has the path, the length and the digest of its file. */
  predicate LineOf(f: Format, e: Entry, item: Item) {
    e.node.File? && item.path == e.path && item.size == |e.node.data| && item.sha == f.sha(e.node.data)
  }

  /** There is an inventory if and only if there is no symbolic link; it has a line for each file that is not called
      like the manifest, in order, and the sum of their lengths. */
  lemma {:induction false} InventoryIs(f: Format, tree: Tree)
    ensures Inventory(f, tree).Ok? <==> forall e :: e in tree ==> e.node.File?
    ensures Inventory(f, tree).Ok? ==>
      var (items, total) := Inventory(f, tree).value;
      && |items| == |Covered(tree)| && total == TotalSize(Covered(tree))
      && forall i :: 0 <= i < |items| ==> LineOf(f, Covered(tree)[i], items[i])
  {
    if tree != [] {
      InventoryIs(f, tree[1..]);
      assert forall e :: e in tree <==> e == tree[0] || e in tree[1..];
      if Inventory(f, tree).Ok? && !ManifestName(tree[0].path) {
        assert ([tree[0]] + Covered(tree[1..]))[1..] == Covered(tree[1..]);
      }
    }
  }

  /** The covered files are those of the tree but for the ones called `decillion-manifest.json`. */
  lemma {:induction false} CoveredAre(tree: Tree)
    ensures forall e :: e in Covered(tree) <==>
      e in tree && (e.path == [] || e.path[|e.path| - 1] != "decillion-manifest.json")
  {
    if tree != [] {
      CoveredAre(tree[1..]);
      assert forall e :: e in tree <==> e == tree[0] || e in tree[1..];
    }
  }

  /** A directory verifies to a manifest if and only if its manifest file says so, the inventory has the manifest's
      lines and total, and the manifest names this model and revision. */
  lemma VerifyIff(f: Format, tree: Tree, model: string, revision: string, m: Manifest)
    ensures Verify(f, tree, model, revision) == Ok(m) <==>
      && Readable(Lookup(tree, ["decillion-manifest.json"])).Some?
      && f.parse(Readable(Lookup(tree, ["decillion-manifest.json"])).value) == Some(m)
      && Inventory(f, tree) == Ok((m.files, m.total)) && m.model == model && m.revision == revision
  {
  }

  /** Otherwise the first check that fails is what is wrong. */
  lemma NotVerified(f: Format, tree: Tree, model: string, revision: string)
    ensures var r, text := Verify(f, tree, model, revision), Readable(Lookup(tree, ["decillion-manifest.json"]));
      && (text.None? ==> r == Err(NoManifest))
      && (text.Some? && f.parse(text.value).None? ==> r == Err(Unreadable))
      && (text.Some? && f.parse(text.value).Some? ==>
            var m := f.parse(text.value).value;
            && (Inventory(f, tree).Err? ==> r == Err(SymlinkFound))
            && (Inventory(f, tree).Ok? && Inventory(f, tree).value != (m.files, m.total) ==> r == Err(InventoryDiffers))
            && (Inventory(f, tree) == Ok((m.files, m.total)) && !(m.model == model && m.revision == revision) ==>
                  r == Err(IdentityDiffers)))
  {
    InventoryFault(f, tree);
  }

  /** What is read for the manifest: the first entry of that name, links to regular files followed. */
  lemma {:induction false} LookupIs(tree: Tree, path: Path, i: nat)
    requires i < |tree| && tree[i].path == path && forall j :: 0 <= j < i ==> tree[j].path != path
    ensures Lookup(tree, path) == Some(tree[i].node)
  {
    if i > 0 { LookupIs(tree[1..], path, i - 1); }
  }

  /** Write the manifest file: in the place of an old one, or at place `at` of the sorted listing. */
  function WithManifest(tree: Tree, text: Bytes, at: nat): Tree
    requires at <= |tree|
  {
    if Lookup(tree, [MANIFEST]).Some? then Replaced(tree, text)
    else tree[..at] + [Entry([MANIFEST], File(text))] + tree[at..]
  }

  function Replaced(tree: Tree, text: Bytes): Tree {
    if tree == [] then []
    else if tree[0].path == [MANIFEST] then [Entry([MANIFEST], File(text))] + tree[1..]
    else [tree[0]] + Replaced(tree[1..], text)
  }

  // ---------------------------------------------------------------- the manifest leaves the inventory alone

  lemma {:induction false} InsertedManifest(f: Format, tree: Tree, text: Bytes, at: nat)
    requires at <= |tree| && Lookup(tree, [MANIFEST]).None?
    ensures var t := tree[..at] + [Entry([MANIFEST], File(text))] + tree[at..];
      Inventory(f, t) == Inventory(f, tree) && Lookup(t, [MANIFEST]) == Some(File(text))
  {
    var e := Entry([MANIFEST], File(text));
    var t := tree[..at] + [e] + tree[at..];
    if at == 0 {
      assert t[0] == e && t[1..] == tree;
    } else {
      InsertedManifest(f, tree[1..], text, at - 1);
      assert t[0] == tree[0] && t[1..] == tree[1..][..at - 1] + [e] + tree[1..][at - 1..];
    }
  }

  lemma {:induction false} ReplacedManifest(f: Format, tree: Tree, text: Bytes)
    requires Inventory(f, tree).Ok? && Lookup(tree, [MANIFEST]).Some?
    ensures Inventory(f, Replaced(tree, text)) == Inventory(f, tree)
    ensures Lookup(Replaced(tree, text), [MANIFEST]) == Some(File(text))
  {
    var head, rest := tree[0], tree[1..];
    if head.path == [MANIFEST] {
      ManifestFirst(f, tree, head, rest);
      ManifestFirst(f, Replaced(tree, text), Entry([MANIFEST], File(text)), rest);
    } else {
      ReplacedManifest(f, rest, text);
      assert tree == [head] + rest && Replaced(tree, text) == [head] + Replaced(rest, text);
      SameRest(f, head, rest, Replaced(rest, text));
    }
  }

  lemma ManifestFirst(f: Format, tree: Tree, head: Entry, rest: Tree)
    requires tree == [head] + rest && head.path == [MANIFEST]
    ensures Lookup(tree, [MANIFEST]) == Some(head.node)
    ensures head.node.File? ==> Inventory(f, tree) == Inventory(f, rest)
    ensures head.node.Symlink? ==> Inventory(f, tree).Err?
  {
    assert tree[0] == head && tree[1..] == rest;
  }

  lemma SameRest(f: Format, head: Entry, a: Tree, b: Tree)
    requires Inventory(f, a) == Inventory(f, b) && head.path != [MANIFEST]
    ensures Inventory(f, [head] + a) == Inventory(f, [head] + b)
    ensures Lookup([head] + b, [MANIFEST]) == Lookup(b, [MANIFEST])
  {
    assert ([head] + a)[1..] == a && ([head] + b)[1..] == b;
  }

  /** A directory whose manifest was written from its own inventory verifies. */
  lemma CommittedVerifies(f: Format, tree: Tree, m: Manifest, at: nat)
    requires Faithful(f) && at <= |tree| && Inventory(f, tree) == Ok((m.files, m.total))
    ensures Verify(f, WithManifest(tree, f.json(m), at), m.model, m.revision) == Ok(m)
  {
    if Lookup(tree, [MANIFEST]).Some? {
      ReplacedManifest(f, tree, f.json(m));
    } else {
      InsertedManifest(f, tree, f.json(m), at);
    }
  }

  // ---------------------------------------------------------------- what verify certifies

  /** The files that the inventory covers. */
  function Covered(tree: Tree): Tree {
    if tree == [] then []
    else if ManifestName(tree[0].path) then Covered(tree[1..])
    else [tree[0]] + Covered(tree[1..])
  }

  ghost function Contents(tree: Tree): set<Bytes> {
    set e | e in tree && e.node.File? :: e.node.data
  }

  /** Two directories with one inventory hold the same files under the same names, nothing
      changed, missing or added, or two of their files collide. */
  lemma {:induction false} InventoryBinds(f: Format, a: Tree, b: Tree)
    requires Inventory(f, a).Ok? && Inventory(f, b).Ok? && Inventory(f, a).value.0 == Inventory(f, b).value.0
    ensures Covered(a) == Covered(b) || Collides(f.sha, Contents(a), Contents(b))
    decreases |a| + |b|
  {
    if a != [] && ManifestName(a[0].path) {
      InventoryBinds(f, a[1..], b);
      TailCollides(f, a, b, 1, 0);
    } else if b != [] && ManifestName(b[0].path) {
      InventoryBinds(f, a, b[1..]);
      TailCollides(f, a, b, 0, 1);
    } else if a != [] && b != [] {
      var ia, ib := Inventory(f, a[1..]).value.0, Inventory(f, b[1..]).value.0;
      var xa := Item(a[0].path, |a[0].node.data|, f.sha(a[0].node.data));
      var xb := Item(b[0].path, |b[0].node.data|, f.sha(b[0].node.data));
      assert ([xa] + ia)[0] == ([xb] + ib)[0] && ([xa] + ia)[1..] == ia && ([xb] + ib)[1..] == ib;
      InventoryBinds(f, a[1..], b[1..]);
      TailCollides(f, a, b, 1, 1);
      assert a[0].node.data in Contents(a) && b[0].node.data in Contents(b);
    }
  }

  lemma TailCollides(f: Format, a: Tree, b: Tree, i: nat, j: nat)
    requires i <= |a| && j <= |b|
    ensures Collides(f.sha, Contents(a[i..]), Contents(b[j..])) ==> Collides(f.sha, Contents(a), Contents(b))
  {
    assert Contents(a[i..]) <= Contents(a) && Contents(b[j..]) <= Contents(b);
  }

  /** `verify` detects every change: a directory that still verifies with the manifest it had
      before holds the files it held before, or two of the files collide. */
  lemma VerifyDetectsChange(f: Format, before: Tree, after: Tree, model: string, revision: string)
    requires Verify(f, before, model, revision).Ok?
    requires Verify(f, after, model, revision) == Verify(f, before, model, revision)
    ensures Covered(after) == Covered(before) || Collides(f.sha, Contents(after), Contents(before))
  {
    InventoryBinds(f, after, before);
  }
}
