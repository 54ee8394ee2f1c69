/** Values shared by the whole model. */
module Model {

  datatype Option<+T> = None | Some(value: T)

  datatype Outcome = Ok | Err

  newtype byte = x: int | 0 <= x < 256

  type Content = seq<byte>

  /** An ideal content hash: two hashes are equal exactly when the contents are. */
  datatype Md5 = Md5(of: Content)

  /** Nanoseconds since the Unix epoch. */
  type Time = int

  datatype SyncStateKind = Synced | Pending | Conflict | Error | Uploading | Downloading

  datatype SyncState = SyncState(kind: SyncStateKind, message: Option<string>)

  /** What is known of one file of the sync folder: a row of `file_states`. */
  datatype FileState = FileState(
    id: string,
    relativePath: string,
    driveFileId: Option<string>,
    driveMd5: Option<Md5>,
    driveModified: Option<Time>,
    localMd5: Option<Md5>,
    localModified: Option<Time>,
    syncState: SyncState,
    lastSyncedAt: Option<Time>)

  /** The rows of the sync folder, by path. */
  type States = map<string, FileState>

  /** A Drive file resource; `modified` is `modifiedTime` already parsed. */
  datatype DriveFile = DriveFile(
    id: string,
    name: string,
    md5Checksum: Option<Md5>,
    modified: Option<Time>,
    parents: Option<seq<string>>,
    trashed: Option<bool>)
  {
    predicate IsTrashed() { trashed == Some(true) }
  }

  datatype DriveChange = DriveChange(fileId: string, file: Option<DriveFile>, removed: Option<bool>)
}
