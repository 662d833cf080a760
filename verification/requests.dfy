/**
 * The two HTTP requests the sync tool sends to Microsoft Graph, as values:
 * the folder-creation POST of `create_folder` and the content PUT of
 * `upload_file` and of the upload loop, plus the status codes each counts as
 * success.
 */
module Requests {
  import opened Wrappers
  import opened Paths
  import opened GraphUrls

  /** The configured account (USER_ID) and drive destination folder (ONEDRIVE_UPLOAD_PATH). */
  datatype Config = Config(userId: string, destination: string)

  const ReplaceOnConflict: string := "replace"
  const JsonContent: string := "application/json"
  const OctetStream: string := "application/octet-stream"

  /** A request with the headers and body fields that vary; every one carries `Authorization: Bearer {bearer}`. */
  datatype Request =
    | FolderPost(url: string, bearer: string, contentType: string, name: string, conflictBehavior: string)
    | ContentPut(url: string, bearer: string, contentType: string)

  /**
   * `create_folder(folder_name, token)`: a JSON POST to the folder's own
   * `children` endpoint whose body names the folder by the same relative path
   * and asks the server to replace on conflict.
   */
  function FolderRequest(cfg: Config, folderName: string, bearer: string): (r: Request) {
    FolderPost(ChildrenUrl(cfg.userId, cfg.destination, folderName), bearer, JsonContent, folderName, ReplaceOnConflict)
  }

  /**
   * The folder-creation request addresses the children of the very item its
   * body names: URL and body both carry the full relative folder path given
   * by the caller. It is a JSON request asking to replace on conflict.
   */
  lemma FolderRequestNamesItsTarget(cfg: Config, folderName: string, bearer: string)
    ensures var r := FolderRequest(cfg, folderName, bearer);
            r.FolderPost? && r.name == folderName &&
            ChildrenTarget(cfg.userId, cfg.destination, r.url) == Some(folderName) &&
            r.contentType == JsonContent && r.conflictBehavior == ReplaceOnConflict && r.bearer == bearer
  {
    FramedComplete(ItemPrefix(cfg.userId, cfg.destination), ChildrenSuffix, folderName);
  }

  /** `create_folder` reports success only for 201 Created. */
  predicate FolderCreated(status: int) {
    status == 201
  }

  /** The octet-stream PUT that sends a file's bytes to the item at `itemPath`. */
  function ContentRequest(cfg: Config, itemPath: string, bearer: string): (r: Request) {
    ContentPut(ContentUrl(cfg.userId, cfg.destination, itemPath), bearer, OctetStream)
  }

  /** The upload loop counts 200 OK and 201 Created as a successful upload. */
  predicate UploadSucceeded(status: int) {
    status == 200 || status == 201
  }

  /**
   * `upload_file(file_path, token)`: the standalone helper keeps only the
   * basename of the local path, so the item always lands directly in the
   * destination folder.
   */
  function UploadFileRequest(cfg: Config, filePath: string, bearer: string): (r: Request)
    ensures r.ContentPut? && r.bearer == bearer && r.contentType == OctetStream
    ensures ContentTarget(cfg.userId, cfg.destination, r.url) == Some(Basename(filePath))
  {
    ContentUrlRoundTrip(cfg.userId, cfg.destination, Basename(filePath));
    ContentRequest(cfg, Basename(filePath), bearer)
  }

  /**
   * Flattening: two local files with the same name in different directories
   * are sent to the same remote item by `upload_file`.
   */
  lemma UploadFileFlattens(cfg: Config, dir1: string, dir2: string, name: string, bearer: string)
    requires NoSep(name)
    ensures UploadFileRequest(cfg, dir1 + [Sep] + name, bearer) == UploadFileRequest(cfg, dir2 + [Sep] + name, bearer)
    ensures UploadFileRequest(cfg, dir1 + [Sep] + name, bearer) == ContentRequest(cfg, name, bearer)
  {
    BasenameAfterSep(dir1, name);
    BasenameAfterSep(dir2, name);
  }
}
