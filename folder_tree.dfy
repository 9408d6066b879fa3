/** `buildFolderTree`: turns the flat folder and note lists into a parent/child tree.

    The source fills a JavaScript `Map` from folder id to node, pushes each note onto its
    folder's node, then walks the map in insertion order, pushing each node either onto
    the roots or onto its parent's `children`. Nodes are shared objects, so parent links
    that form a cycle give a cyclic object graph; the model therefore names children by
    id: the result is the list of root ids plus the map from id to node. */
module FolderTree {
  import opened Wrappers
  import opened Seqs
  import opened Entities

  /** A tree node (`FolderNode`): the folder's own fields, its sub-folders (by id) and its notes. */
  datatype FolderNode = FolderNode(folder: Folder, children: seq<int>, notes: seq<NoteDto>)

  /** The folder a `Map` keyed by id holds after `set` was called for each folder in turn:
      a later folder with the same id replaces the earlier one. */
  function Index(fs: seq<Folder>): (m: map<int, Folder>)
    ensures forall i :: 0 <= i < |fs| ==> fs[i].id in m
    ensures forall k :: k in m ==> m[k].id == k && m[k] in fs
    decreases |fs|
  {
    if fs == [] then map[]
    else
      var m := Index(fs[..|fs| - 1]);
      assert forall k :: k in m ==> m[k] in fs by {
        forall k | k in m ensures m[k] in fs { assert m[k] in fs[..|fs| - 1]; }
      }
      m[fs[|fs| - 1].id := fs[|fs| - 1]]
  }

  /** The iteration order of that `Map`: each id once, where it was first inserted
      (replacing a value keeps the key's place). */
  function KeyOrder(fs: seq<Folder>): (ks: seq<int>)
    ensures Distinct(ks)
    ensures forall k :: k in ks <==> k in Index(fs)
    decreases |fs|
  {
    if fs == [] then []
    else
      var ks := KeyOrder(fs[..|fs| - 1]);
      var id := fs[|fs| - 1].id;
      if id in ks then ks
      else
        assert Distinct(ks + [id]) by {
          forall i, j | 0 <= i < j < |ks| + 1 ensures (ks + [id])[i] != (ks + [id])[j] {
            if j == |ks| { assert (ks + [id])[i] == ks[i]; }
          }
        }
        ks + [id]
  }

  /** Inserting more folders never reorders the keys already there. */
  lemma {:induction false} KeyOrderPrefix(fs: seq<Folder>, n: nat)
    requires n <= |fs|
    ensures KeyOrder(fs[..n]) <= KeyOrder(fs)
    decreases |fs| - n
  {
    if n < |fs| {
      var init := fs[..|fs| - 1];
      assert init[..n] == fs[..n];
      KeyOrderPrefix(init, n);
    } else {
      assert fs[..n] == fs;
    }
  }

  /** Keys come in order of first occurrence: when `fs[j]` is the first folder with its id,
      that id comes right after the ids of the folders before it. */
  lemma KeyOrderFirstOccurrence(fs: seq<Folder>, j: nat)
    requires j < |fs|
    requires forall i :: 0 <= i < j ==> fs[i].id != fs[j].id
    ensures var b := |KeyOrder(fs[..j])|;
            && b < |KeyOrder(fs)|
            && KeyOrder(fs)[..b] == KeyOrder(fs[..j])
            && KeyOrder(fs)[b] == fs[j].id
  {
    var pre := fs[..j];
    var upTo := fs[..j + 1];
    var id := fs[j].id;
    assert id !in KeyOrder(pre);
    assert upTo[..|upTo| - 1] == pre && upTo[|upTo| - 1] == fs[j];
    var ks := KeyOrder(upTo);
    assert ks == KeyOrder(pre) + [id];
    KeyOrderPrefix(fs, j + 1);
    var all := KeyOrder(fs);
    assert all[..|ks|] == ks;
    assert all[..|KeyOrder(pre)|] == ks[..|KeyOrder(pre)|];
  }

  /** The folder a note belongs to is the one whose id is the note's `id_folder`. */
  function InFolder(k: int): NoteDto -> bool
  {
    (n: NoteDto) => n.id_folder == k
  }

  /** A folder in `m` with no parent. */
  function IsRootIn(m: map<int, Folder>): int -> bool
  {
    (k: int) => k in m && m[k].id_parent_folder == None
  }

  /** A folder in `m` whose parent id is `p`. */
  function IsChildIn(m: map<int, Folder>, p: int): int -> bool
  {
    (k: int) => k in m && m[k].id_parent_folder == Some(p)
  }

  /** The notes of folder `k`, in input order. */
  function NotesOf(notes: seq<NoteDto>, k: int): seq<NoteDto>
  {
    Filter(notes, InFolder(k))
  }

  /** The ids of the root folders, in `Map` iteration order. */
  function Roots(fs: seq<Folder>): seq<int>
  {
    Filter(KeyOrder(fs), IsRootIn(Index(fs)))
  }

  /** The ids of the sub-folders of `p`, in `Map` iteration order. */
  function ChildrenOf(fs: seq<Folder>, p: int): seq<int>
  {
    Filter(KeyOrder(fs), IsChildIn(Index(fs), p))
  }

  /** Step 1 of `buildFolderTree`: one node per folder id, with no children and no notes,
      and the `Map`'s key order. */
  method MakeNodes(folders: seq<Folder>) returns (folderMap: map<int, FolderNode>, order: seq<int>)
    ensures order == KeyOrder(folders)
    ensures folderMap.Keys == Index(folders).Keys
    ensures forall k :: k in folderMap ==> folderMap[k] == FolderNode(Index(folders)[k], [], [])
  {
    folderMap, order := map[], [];
    var i := 0;
    while i < |folders|
      invariant 0 <= i <= |folders|
      invariant order == KeyOrder(folders[..i])
      invariant folderMap.Keys == Index(folders[..i]).Keys
      invariant forall k :: k in folderMap ==> folderMap[k] == FolderNode(Index(folders[..i])[k], [], [])
    {
      var f := folders[i];
      assert folders[..i + 1][..i] == folders[..i];
      assert Index(folders[..i + 1]) == Index(folders[..i])[f.id := f];
      if f.id !in folderMap {
        order := order + [f.id];
      }
      folderMap := folderMap[f.id := FolderNode(f, [], [])];
      i := i + 1;
    }
    assert folders[..|folders|] == folders;
  }

  /** Step 2: each note is pushed onto the node of its folder, if there is one. */
  method AttachNotes(nodes0: map<int, FolderNode>, index: map<int, Folder>, notes: seq<NoteDto>)
    returns (folderMap: map<int, FolderNode>)
    requires nodes0.Keys == index.Keys
    requires forall k :: k in nodes0 ==> nodes0[k] == FolderNode(index[k], [], [])
    ensures folderMap.Keys == index.Keys
    ensures forall k :: k in folderMap ==> folderMap[k] == FolderNode(index[k], [], NotesOf(notes, k))
  {
    folderMap := nodes0;
    var j := 0;
    while j < |notes|
      invariant 0 <= j <= |notes|
      invariant folderMap.Keys == index.Keys
      invariant forall k :: k in folderMap ==> folderMap[k] == FolderNode(index[k], [], NotesOf(notes[..j], k))
    {
      var note := notes[j];
      assert notes[..j + 1] == notes[..j] + [note];
      forall k ensures NotesOf(notes[..j + 1], k) == NotesOf(notes[..j], k) + (if note.id_folder == k then [note] else []) {
        FilterSnoc(notes[..j], note, InFolder(k));
      }
      if note.id_folder in folderMap {
        var node := folderMap[note.id_folder];
        folderMap := folderMap[note.id_folder := node.(notes := node.notes + [note])];
      }
      j := j + 1;
    }
    assert notes[..|notes|] == notes;
  }

  /** Step 3: walks the nodes in key order, pushing each one onto the roots when it has no
      parent, onto its parent's `children` when the parent exists, and nowhere otherwise. */
  method LinkNodes(nodes0: map<int, FolderNode>, index: map<int, Folder>, order: seq<int>)
    returns (roots: seq<int>, folderMap: map<int, FolderNode>)
    requires nodes0.Keys == index.Keys
    requires forall k :: k in order ==> k in index
    requires forall k :: k in nodes0 ==> nodes0[k].folder == index[k] && nodes0[k].children == []
    ensures folderMap.Keys == index.Keys
    ensures roots == Filter(order, IsRootIn(index))
    ensures forall k :: k in folderMap ==>
              folderMap[k] == nodes0[k].(children := Filter(order, IsChildIn(index, k)))
  {
    roots, folderMap := [], nodes0;
    var m := 0;
    while m < |order|
      invariant 0 <= m <= |order|
      invariant folderMap.Keys == index.Keys
      invariant roots == Filter(order[..m], IsRootIn(index))
      invariant forall k :: k in folderMap ==>
                  folderMap[k] == nodes0[k].(children := Filter(order[..m], IsChildIn(index, k)))
    {
      var k := order[m];
      assert order[..m + 1] == order[..m] + [k];
      FilterSnoc(order[..m], k, IsRootIn(index));
      forall p ensures Filter(order[..m + 1], IsChildIn(index, p))
                       == Filter(order[..m], IsChildIn(index, p)) + (if IsChildIn(index, p)(k) then [k] else []) {
        FilterSnoc(order[..m], k, IsChildIn(index, p));
      }
      var node := folderMap[k];
      if node.folder.id_parent_folder == None {
        roots := roots + [k];
      } else {
        var p := node.folder.id_parent_folder.value;
        if p in folderMap {
          var parent := folderMap[p];
          folderMap := folderMap[p := parent.(children := parent.children + [k])];
        }
      }
      m := m + 1;
    }
    assert order[..|order|] == order;
  }

  /** `buildFolderTree(folders, notes)`: returns the root ids and every node of the id map. */
  method BuildFolderTree(folders: seq<Folder>, notes: seq<NoteDto>)
    returns (roots: seq<int>, nodes: map<int, FolderNode>)
    ensures nodes.Keys == Index(folders).Keys
    ensures forall k :: k in nodes ==>
              nodes[k] == FolderNode(Index(folders)[k], ChildrenOf(folders, k), NotesOf(notes, k))
    ensures roots == Roots(folders)
  {
    var folderMap, order := MakeNodes(folders);
    folderMap := AttachNotes(folderMap, Index(folders), notes);
    roots, nodes := LinkNodes(folderMap, Index(folders), order);
  }

  /** `buildFolderTree(folders)` with `notes` omitted: every node's notes list is empty. */
  method BuildFolderTreeWithoutNotes(folders: seq<Folder>)
    returns (roots: seq<int>, nodes: map<int, FolderNode>)
    ensures nodes.Keys == Index(folders).Keys
    ensures roots == Roots(folders)
    ensures forall k :: k in nodes ==> nodes[k].folder == Index(folders)[k] && nodes[k].notes == []
  {
    roots, nodes := BuildFolderTree(folders, []);
  }

  /** The node of a folder id carries the last folder with that id in the input. */
  lemma {:induction false} IndexKeepsLast(fs: seq<Folder>, i: nat)
    requires i < |fs|
    requires forall j :: i < j < |fs| ==> fs[j].id != fs[i].id
    ensures Index(fs)[fs[i].id] == fs[i]
    decreases |fs|
  {
    if i < |fs| - 1 {
      IndexKeepsLast(fs[..|fs| - 1], i);
    }
  }

  /** The roots are exactly the folders without a parent; the children of `p` are exactly
      the folders whose parent id is `p`. */
  lemma Placement(fs: seq<Folder>, k: int, p: int)
    ensures k in Roots(fs) <==> k in Index(fs) && Index(fs)[k].id_parent_folder == None
    ensures k in ChildrenOf(fs, p) <==> k in Index(fs) && Index(fs)[k].id_parent_folder == Some(p)
  {
    var ks := KeyOrder(fs);
    FilterMembers(ks, IsRootIn(Index(fs)));
    FilterMembers(ks, IsChildIn(Index(fs), p));
    if k in Index(fs) {
      var i :| 0 <= i < |ks| && ks[i] == k;
    }
  }

  /** Every node is placed at most once: the roots and every children list hold no id
      twice, a root is nobody's child, and no id is the child of two parents. */
  lemma PlacedAtMostOnce(fs: seq<Folder>)
    ensures Distinct(Roots(fs))
    ensures forall p :: Distinct(ChildrenOf(fs, p))
    ensures forall k, p :: k in Roots(fs) ==> k !in ChildrenOf(fs, p)
    ensures forall k, p, q :: k in ChildrenOf(fs, p) && k in ChildrenOf(fs, q) ==> p == q
  {
    FilterDistinct(KeyOrder(fs), IsRootIn(Index(fs)));
    forall p ensures Distinct(ChildrenOf(fs, p)) {
      FilterDistinct(KeyOrder(fs), IsChildIn(Index(fs), p));
    }
  }

  /** A folder whose parent id names no folder is neither a root nor anybody's child:
      it appears nowhere in the tree. */
  lemma DanglingParentIsDropped(fs: seq<Folder>, k: int, p: int)
    requires k in Index(fs) && Index(fs)[k].id_parent_folder == Some(p)
    requires p !in Index(fs)
    ensures k !in Roots(fs)
    ensures forall q :: q in Index(fs) ==> k !in ChildrenOf(fs, q)
  {
    Placement(fs, k, p);
    forall q | q in Index(fs) ensures k !in ChildrenOf(fs, q) {
      Placement(fs, k, q);
    }
  }

  /** Notes attach only to the folder named by their `id_folder`, in input order; a note
      whose folder is missing is attached nowhere. */
  lemma NotesAttachment(fs: seq<Folder>, notes: seq<NoteDto>, k: int)
    ensures forall n :: n in NotesOf(notes, k) <==> n in notes && n.id_folder == k
    ensures IsSubsequence(NotesOf(notes, k), notes)
  {
    FilterIsSubsequence(notes, InFolder(k));
    FilterMembers(notes, InFolder(k));
    forall n | n in notes && n.id_folder == k ensures n in NotesOf(notes, k) {
      var i :| 0 <= i < |notes| && notes[i] == n;
    }
  }
}
