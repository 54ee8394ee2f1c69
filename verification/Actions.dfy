/** Sync actions: what to do for one file. */
module Actions {
  import opened Model

  datatype Kind = NewUpload | NewDownload | UpdateUpload | UpdateDownload | DeleteRemote | DeleteLocal | Conflict

  datatype SyncAction = SyncAction(
    kind: Kind,
    relativePath: string,
    state: Option<FileState>,
    driveFile: Option<DriveFile>,
    localMd5: Option<Md5>,
    localModified: Option<Time>)
  {
    /** Downloads go first, then conflicts, uploads and deletes. */
    function Priority(): nat {
      match kind
      case NewDownload => 0
      case UpdateDownload => 0
      case Conflict => 1
      case NewUpload => 2
      case UpdateUpload => 2
      case DeleteLocal => 3
      case DeleteRemote => 3
    }
  }

  function NewUploadOf(path: string, md5: Md5, modified: Time): SyncAction {
    SyncAction(NewUpload, path, None, None, Some(md5), Some(modified))
  }

  function NewDownloadOf(path: string, file: DriveFile): SyncAction {
    SyncAction(NewDownload, path, None, Some(file), None, None)
  }

  function UpdateUploadOf(path: string, state: FileState, md5: Md5, modified: Time): SyncAction {
    SyncAction(UpdateUpload, path, Some(state), None, Some(md5), Some(modified))
  }

  function UpdateDownloadOf(path: string, state: FileState, file: DriveFile): SyncAction {
    SyncAction(UpdateDownload, path, Some(state), Some(file), None, None)
  }

  function DeleteRemoteOf(path: string, state: FileState): SyncAction {
    SyncAction(DeleteRemote, path, Some(state), None, None, None)
  }

  function DeleteLocalOf(path: string, state: FileState): SyncAction {
    SyncAction(DeleteLocal, path, Some(state), None, None, None)
  }

  function ConflictOf(path: string, state: FileState, file: DriveFile, md5: Md5, modified: Time): SyncAction {
    SyncAction(Kind.Conflict, path, Some(state), Some(file), Some(md5), Some(modified))
  }

  predicate LocalChanged(state: FileState, md5: Md5, modified: Time) {
    state.localMd5 != Some(md5) || state.localModified != Some(modified)
  }

  predicate RemoteChanged(state: FileState, md5: Option<Md5>, modified: Option<Time>) {
    state.driveMd5 != md5 || state.driveModified != modified
  }

  /** Both sides changed since the last sync. */
  predicate IsConflict(state: FileState, localMd5: Md5, localModified: Time,
                       driveMd5: Option<Md5>, driveModified: Option<Time>) {
    LocalChanged(state, localMd5, localModified) && RemoteChanged(state, driveMd5, driveModified)
  }

  /** No two actions of the list are for the same path. */
  ghost predicate DistinctPaths(actions: seq<SyncAction>) {
    forall i, j :: 0 <= i < j < |actions| ==> actions[i].relativePath != actions[j].relativePath
  }
}
