/** The records shared by the folder tree and the in-memory folder store. */
module Entities {
  import opened Wrappers

  /** A folder (`Folder`, and `FolderDto` as the tree builder receives it): a top-level
      folder has no parent id (`id_parent_folder` is `null`). */
  datatype Folder = Folder(
    id: int,
    id_user: int,
    id_parent_folder: Option<int>,
    title: string,
    created_at: string)

  /** A note as the tree builder receives it (`NoteDto`); the optional timestamps and
      counters it may carry play no part in the tree. */
  datatype NoteDto = NoteDto(
    id: int,
    id_user: int,
    id_folder: int,
    title: string,
    content: string)
}
