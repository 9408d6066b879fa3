/** `FakeFolderService`: an in-memory folder store, seeded with two folders, with an
    auto-increment id counter. */
module FakeFolders {
  import opened Wrappers
  import opened Seqs
  import opened Entities

  /** What `createFolder` receives: a folder without `id` and `created_at`. */
  datatype FolderData = FolderData(id_user: int, id_parent_folder: Option<int>, title: string)

  /** What `updateFolder` receives (`Partial<Folder>`): each field that is present
      overrides the stored one. */
  datatype FolderPatch = FolderPatch(
    id: Option<int>,
    id_user: Option<int>,
    id_parent_folder: Option<Option<int>>,
    title: Option<string>,
    created_at: Option<string>)

  /** `{ ...f, ...u }`: the fields of `f`, overridden by those present in `u`. */
  function Apply(f: Folder, u: FolderPatch): (r: Folder)
    ensures u == FolderPatch(None, None, None, None, None) ==> r == f
    ensures r.id == (if u.id.Some? then u.id.value else f.id)
    ensures r.id_user == (if u.id_user.Some? then u.id_user.value else f.id_user)
    ensures r.id_parent_folder == (if u.id_parent_folder.Some? then u.id_parent_folder.value else f.id_parent_folder)
    ensures r.title == (if u.title.Some? then u.title.value else f.title)
    ensures r.created_at == (if u.created_at.Some? then u.created_at.value else f.created_at)
  {
    Folder(
      if u.id.Some? then u.id.value else f.id,
      if u.id_user.Some? then u.id_user.value else f.id_user,
      if u.id_parent_folder.Some? then u.id_parent_folder.value else f.id_parent_folder,
      if u.title.Some? then u.title.value else f.title,
      if u.created_at.Some? then u.created_at.value else f.created_at)
  }

  function OwnedBy(u: int): Folder -> bool
  {
    (f: Folder) => f.id_user == u
  }

  function HasParent(p: Option<int>): Folder -> bool
  {
    (f: Folder) => f.id_parent_folder == p
  }

  function IdIsNot(id: int): Folder -> bool
  {
    (f: Folder) => f.id != id
  }

  /** The index of the first folder with the given id, if any. */
  function FirstWithId(fs: seq<Folder>, id: int): (r: Option<nat>)
    ensures r.Some? ==> r.value < |fs| && fs[r.value].id == id
                        && forall j :: 0 <= j < r.value ==> fs[j].id != id
    ensures r.None? <==> forall j :: 0 <= j < |fs| ==> fs[j].id != id
    decreases |fs|
  {
    if fs == [] then None
    else if fs[0].id == id then Some(0)
    else
      match FirstWithId(fs[1..], id)
      case None => assert forall j :: 1 <= j < |fs| ==> fs[j] == fs[1..][j - 1]; None
      case Some(k) => assert forall j :: 1 <= j < k + 1 ==> fs[j] == fs[1..][j - 1]; Some(k + 1)
  }

  /** The store after `updateFolder(id, updates)`: only the first folder with that id changes. */
  function Updated(fs: seq<Folder>, id: int, updates: FolderPatch): (r: seq<Folder>)
    ensures |r| == |fs|
    ensures FirstWithId(fs, id).None? ==> r == fs
    ensures FirstWithId(fs, id).Some? ==>
              var i := FirstWithId(fs, id).value;
              r[i] == Apply(fs[i], updates) && forall j :: 0 <= j < |fs| && j != i ==> r[j] == fs[j]
  {
    match FirstWithId(fs, id)
    case None => fs
    case Some(i) => fs[i := Apply(fs[i], updates)]
  }

  class FakeFolderService {
    var folders: seq<Folder>
    var autoIncrementId: int
    /** The ids `createFolder` has handed out so far, oldest first. */
    ghost var issued: seq<int>

    /** The counter is the next id to hand out; ids are handed out from 3, one by one. */
    ghost predicate Valid()
      reads this
    {
      && autoIncrementId == 3 + |issued|
      && forall i :: 0 <= i < |issued| ==> issued[i] == 3 + i
    }

    /** The store as the source seeds it: folders 1 and 2 (2 inside 1), counter at 3.
        `created1` and `created2` stand for the two separate `new Date().toISOString()`
        readings of the seeds, which need not be equal. */
    constructor (created1: string, created2: string)
      ensures Valid() && issued == []
      ensures folders == [Folder(1, 1, None, "Les dossiers de Roddy", created1),
                          Folder(2, 1, Some(1), "Projets", created2)]
      ensures autoIncrementId == 3
    {
      folders := [Folder(1, 1, None, "Les dossiers de Roddy", created1),
                  Folder(2, 1, Some(1), "Projets", created2)];
      autoIncrementId := 3;
      issued := [];
    }

    /** `getFoldersByUser(id_user)`: the stored folders of that user, in stored order. */
    method GetFoldersByUser(id_user: int) returns (result: seq<Folder>)
      ensures result == Filter(folders, OwnedBy(id_user))
    {
      result := [];
      var i := 0;
      while i < |folders|
        invariant 0 <= i <= |folders|
        invariant result == Filter(folders[..i], OwnedBy(id_user))
      {
        var f := folders[i];
        assert folders[..i + 1] == folders[..i] + [f];
        FilterSnoc(folders[..i], f, OwnedBy(id_user));
        if f.id_user == id_user {
          result := result + [f];
        }
        i := i + 1;
      }
      assert folders[..|folders|] == folders;
    }

    /** `getChildren(parentId)`: the stored folders whose parent id is `parentId`
        (`None`, i.e. `null`, gives the top-level folders), in stored order. */
    method GetChildren(parentId: Option<int>) returns (result: seq<Folder>)
      ensures result == Filter(folders, HasParent(parentId))
    {
      result := [];
      var i := 0;
      while i < |folders|
        invariant 0 <= i <= |folders|
        invariant result == Filter(folders[..i], HasParent(parentId))
      {
        var f := folders[i];
        assert folders[..i + 1] == folders[..i] + [f];
        FilterSnoc(folders[..i], f, HasParent(parentId));
        if f.id_parent_folder == parentId {
          result := result + [f];
        }
        i := i + 1;
      }
      assert folders[..|folders|] == folders;
    }

    /** `createFolder(data)`: the new folder takes the counter's value as its id, the counter
        moves on by one, and the folder is appended after the existing ones. */
    method CreateFolder(data: FolderData, now: string) returns (newFolder: Folder)
      requires Valid()
      modifies this
      ensures Valid()
      ensures newFolder == Folder(old(autoIncrementId), data.id_user, data.id_parent_folder, data.title, now)
      ensures folders == old(folders) + [newFolder]
      ensures autoIncrementId == old(autoIncrementId) + 1
      ensures issued == old(issued) + [newFolder.id]
    {
      newFolder := Folder(autoIncrementId, data.id_user, data.id_parent_folder, data.title, now);
      autoIncrementId := autoIncrementId + 1;
      issued := issued + [newFolder.id];
      folders := folders + [newFolder];
    }

    /** `updateFolder(id, updates)`: overwrites the first folder with that id by its fields
        overridden with `updates` and returns it; returns `null` and changes nothing when no
        folder has that id. */
    method UpdateFolder(id: int, updates: FolderPatch) returns (r: Option<Folder>)
      requires Valid()
      modifies this
      ensures Valid()
      ensures folders == Updated(old(folders), id, updates)
      ensures FirstWithId(old(folders), id).None? ==> r == None
      ensures FirstWithId(old(folders), id).Some? ==>
                r == Some(folders[FirstWithId(old(folders), id).value])
      ensures autoIncrementId == old(autoIncrementId) && issued == old(issued)
    {
      var i := 0;
      while i < |folders|
        invariant 0 <= i <= |folders|
        invariant folders == old(folders)
        invariant forall j :: 0 <= j < i ==> folders[j].id != id
      {
        if folders[i].id == id {
          folders := folders[i := Apply(folders[i], updates)];
          return Some(folders[i]);
        }
        i := i + 1;
      }
      return None;
    }

    /** `deleteFolder(id)`: keeps, in order, every folder whose id differs, and tells whether
        at least one folder was removed. */
    method DeleteFolder(id: int) returns (deleted: bool)
      requires Valid()
      modifies this
      ensures Valid()
      ensures folders == Filter(old(folders), IdIsNot(id))
      ensures deleted <==> |folders| < |old(folders)|
      ensures deleted <==> exists i :: 0 <= i < |old(folders)| && old(folders)[i].id == id
      ensures autoIncrementId == old(autoIncrementId) && issued == old(issued)
    {
      var newList;
      newList, deleted := KeepOthers(folders, id);
      folders := newList;
    }
  }

  /** The loop of `deleteFolder`: copies every folder whose id differs into a new list and
      notes whether some folder was skipped. */
  method KeepOthers(fs: seq<Folder>, id: int) returns (newList: seq<Folder>, deleted: bool)
    ensures newList == Filter(fs, IdIsNot(id))
    ensures deleted <==> |newList| < |fs|
    ensures deleted <==> exists i :: 0 <= i < |fs| && fs[i].id == id
  {
    newList, deleted := [], false;
    var i := 0;
    while i < |fs|
      invariant 0 <= i <= |fs|
      invariant newList == Filter(fs[..i], IdIsNot(id))
      invariant |newList| <= i
      invariant deleted <==> |newList| < i
    {
      var f := fs[i];
      assert fs[..i + 1] == fs[..i] + [f];
      FilterSnoc(fs[..i], f, IdIsNot(id));
      if f.id != id {
        assert IdIsNot(id)(f);
        newList := newList + [f];
      } else {
        assert !IdIsNot(id)(f);
        deleted := true;
      }
      i := i + 1;
    }
    assert fs[..|fs|] == fs;
    SomethingDeletedIff(fs, id);
  }

  /** Deleting by id shortens the store exactly when some folder carries that id. */
  lemma SomethingDeletedIff(fs: seq<Folder>, id: int)
    ensures |Filter(fs, IdIsNot(id))| < |fs| <==> exists i :: 0 <= i < |fs| && fs[i].id == id
  {
    FilterShorter(fs, IdIsNot(id));
    assert forall j :: 0 <= j < |fs| ==> (!IdIsNot(id)(fs[j]) <==> fs[j].id == id);
  }

  /** `getFoldersByUser` and `getChildren` return exactly the matching folders, in stored order. */
  lemma QueriesSelectExactly(fs: seq<Folder>, u: int, p: Option<int>)
    ensures forall f :: f in Filter(fs, OwnedBy(u)) <==> f in fs && f.id_user == u
    ensures forall f :: f in Filter(fs, HasParent(p)) <==> f in fs && f.id_parent_folder == p
    ensures IsSubsequence(Filter(fs, OwnedBy(u)), fs)
    ensures IsSubsequence(Filter(fs, HasParent(p)), fs)
  {
    FilterIsSubsequence(fs, OwnedBy(u));
    FilterIsSubsequence(fs, HasParent(p));
  }

  /** `updateFolder` changes only the first folder with the given id: every other position
      keeps its folder, and a missing id leaves the store as it was. */
  lemma UpdateTouchesOnlyFirst(fs: seq<Folder>, id: int, updates: FolderPatch)
    ensures |Updated(fs, id, updates)| == |fs|
    ensures (forall j :: 0 <= j < |fs| ==> fs[j].id != id) ==> Updated(fs, id, updates) == fs
    ensures forall j :: 0 <= j < |fs| && (fs[j].id != id || exists k :: 0 <= k < j && fs[k].id == id)
               ==> Updated(fs, id, updates)[j] == fs[j]
  {
  }

  /** `deleteFolder` does not cascade: a sub-folder of the deleted folder stays in the store,
      and its parent id then names no stored folder. */
  lemma DeleteDoesNotCascade(fs: seq<Folder>, id: int, child: Folder)
    requires child in fs && child.id != id && child.id_parent_folder == Some(id)
    ensures child in Filter(fs, IdIsNot(id))
    ensures forall g :: g in Filter(fs, IdIsNot(id)) ==> g.id != id
  {
    var i :| 0 <= i < |fs| && fs[i] == child;
  }

  /** Starting from the seeded store, every id `createFolder` hands out is at least 3, above
      the seeded ids 1 and 2, and each one is larger than all handed out before. */
  lemma IssuedIdsIncrease(s: FakeFolderService)
    requires s.Valid()
    ensures forall i, j :: 0 <= i < j < |s.issued| ==> 3 <= s.issued[i] < s.issued[j]
    ensures forall i :: 0 <= i < |s.issued| ==> s.issued[i] < s.autoIncrementId
  {
  }

  /** The id the next `createFolder` hands out belongs to no stored folder, as long as every
      stored id is a seed id or one the counter issued. `updateFolder` can break that
      premise: a patch may carry any `id`. */
  lemma {:induction false} NextIdIsFresh(s: FakeFolderService)
    requires s.Valid()
    requires forall i :: 0 <= i < |s.folders| ==>
               s.folders[i].id == 1 || s.folders[i].id == 2 || s.folders[i].id in s.issued
    ensures forall i :: 0 <= i < |s.folders| ==> s.folders[i].id != s.autoIncrementId
  {
    forall i | 0 <= i < |s.folders| ensures s.folders[i].id != s.autoIncrementId {
      if s.folders[i].id in s.issued {
        var k :| 0 <= k < |s.issued| && s.issued[k] == s.folders[i].id;
      }
    }
  }
}
