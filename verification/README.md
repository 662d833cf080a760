# onedrive_sync: token lifecycle and upload planning in Dafny

This project models the minimal OneDrive sync script `sync_onedrive.py`, which
mirrors a local folder into a Microsoft Graph drive. The model covers two
pieces of that script and proves properties of them.

- **Token lifecycle.** `TokenManager.get_valid_token` is a pure step over
  the cached `(token, token_expires_at)` pair. It hands back the cached
  token while it is truthy and the clock is strictly before expiry minus five
  minutes. Otherwise it asks the identity backend once. A grant stores the
  token and sets the expiry to the second clock reading plus `expires_in`. A refusal raises and leaves
  the state alone.
- **Upload planning and execution.** `upload_folder` walks the local folder.
  The walk is re-rooted under the local folder's basename. Each walk root
  gets a token, then one folder creation per subdirectory. Each file gets a
  fresh token and then one PUT. The model plans this trace from an abstract
  walk and executes it against the world's answers: clock readings, the
  backend's answer, HTTP status codes, and whether a call raised. Folder
  creation counts as success only on 201. An upload counts as success on 200
  or 201. A request that merely fails is recorded and the walk goes on.
  Nothing in `upload_folder` catches an exception, so the walk stops at:
  - a token request that raises;
  - a `requests.post`, `open` or `requests.put` call that raises;
  - a failed upload whose error body `response.json()` cannot parse.

Time is whole seconds. `get_valid_token` reads the clock twice, once for the
validity check (`now`) and once for the new expiry (`later`). The model takes
both readings as inputs. `os.walk` is an input sequence of
`(relative root, dirs, files)` triples, where `"."` marks the top.

Modules:

- `Paths`: `basename` and `join`.
- `GraphUrls`: the content and children endpoints, and decoding a content URL back to its item path.
- `Requests`: the POST of `create_folder` and the PUT of `upload_file` and of the upload loop.
- `TokenManager`: the token state machine and sequences of calls.
- `UploadPlan`: from the walk to the action trace.
- `Sync`: executing the trace.

## Model

| member | source | states |
|---|---|---|
| Paths.Basename | sync_onedrive.py:84 | The local folder's basename is the longest suffix of its path that contains no '/'. |
| Paths.BasenameAfterSep | sync_onedrive.py:50 | The basename of `dir/name` is `name`, for any `dir`, when `name` holds no '/'. |
| Paths.JoinShape | sync_onedrive.py:96-99 | `os.path.join(a, b)` always ends with `b`. For a relative `b`, it starts with `a`, with at most one '/' inserted between them. That '/' is inserted exactly when `a` is non-empty and does not already end in '/'. |
| Paths.JoinBasename | sync_onedrive.py:99 | The remote folder made for a subdirectory has the subdirectory's name as its last component, whatever the parent path. |
| Paths.JoinOntoComponent | sync_onedrive.py:96 | Joining a relative path onto a non-empty single component inserts exactly one '/'. |
| GraphUrls.ContentUrlRoundTrip | sync_onedrive.py:112 | Decoding the upload URL string of an item path gives back exactly that item path. |
| GraphUrls.ContentTargetSound | sync_onedrive.py:112 | A URL string that decodes to an item path is the upload URL string of that path, so decoding and building are inverse. |
| GraphUrls.ContentUrlInjective | sync_onedrive.py:112 | Distinct item paths never share an upload URL string. |
| GraphUrls.ContentIsNotChildren | sync_onedrive.py:65 | An upload endpoint (`:/content`) is never a folder-creation endpoint (`:/children`). |
| Requests.FolderRequestNamesItsTarget | sync_onedrive.py:64-76 | The folder-creation POST names the caller's folder path in its body. It goes to the `children` endpoint of that same path. It is JSON, asks for replace-on-conflict, and carries the given bearer token. |
| Requests.UploadFileRequest | sync_onedrive.py:49-58 | The standalone upload PUTs to the content URL of the local file's basename, as `application/octet-stream`, carrying the given bearer token. |
| Requests.UploadFileFlattens | sync_onedrive.py:50-51 | The standalone upload flattens paths: two local files with the same name in different directories go to the same remote item. |
| TokenManager.GetValidToken | sync_onedrive.py:29-45 | The backend is asked exactly when the cached token is not usable. Reuse leaves the state unchanged. A returned token is the stored one. A refusal raises with the state untouched. A grant stores its token and sets expiry to the second clock reading plus `expires_in`. A grant without `expires_in` raises after storing the token and keeps the old expiry. |
| TokenManager.FirstCallAcquires | sync_onedrive.py:21-22 | A freshly constructed manager asks the backend on its first call. |
| TokenManager.ReuseWithinBuffer | sync_onedrive.py:31-41 | After a grant of a non-empty token, a second call reuses it, with no backend request and the same token and state, iff it happens strictly before `later + expires_in - 300`. |
| TokenManager.EmptyTokenNeverReused | sync_onedrive.py:31 | An empty access token is stored and returned, but the next call asks the backend again, because the empty string is falsy. |
| TokenManager.RunCalls | sync_onedrive.py:29-45 | A sequence of calls returns one token per call until the first one that raises, and asks the backend at most once per call. |
| TokenManager.BurstWithinBufferReuses | sync_onedrive.py:31-32 | Calls that all fall before the cached token's buffer begins never ask the backend, never change the state, and all return the cached token. |
| TokenManager.BurstAcquiresOnce | sync_onedrive.py:31-41 | A run of calls that begins with a successful refresh, and whose later calls fall before the new buffer, asks the backend exactly once and returns the same token every time. |
| UploadPlan.RemoteRoot | sync_onedrive.py:92-96 | The top walk root maps to the basename. Every relative root maps to a path that starts with the basename. |
| UploadPlan.RemoteRootNested | sync_onedrive.py:95-96 | A non-top relative root `rel` maps to `base/rel`, or to the bare `rel` when the basename is empty. |
| UploadPlan.FolderActions | sync_onedrive.py:98-101 | The subdirectory loop does only folder creations, one per subdirectory. No token request or upload happens inside it. |
| UploadPlan.FileActions | sync_onedrive.py:103-108 | Two actions per file, the first of which is a token request. |
| UploadPlan.FolderActionsAt | sync_onedrive.py:98-101 | The `i`-th action of the subdirectory loop creates the folder `os.path.join(remote root, dirs[i])`. |
| UploadPlan.FileActionsAt | sync_onedrive.py:103-108 | For the `j`-th file, action `2j` is a token request and action `2j + 1` uploads to `remote root + "/" + files[j]`. |
| UploadPlan.EntryActions | sync_onedrive.py:87-108 | One walk root costs one token request up front, one action per subdirectory and two per file. |
| UploadPlan.EntryProjections | sync_onedrive.py:89-108 | One walk root uploads exactly its files, to `remote root + "/" + name`, and creates exactly its subdirectories, to `os.path.join(remote root, dir)`. It asks for one token per file plus one. |
| UploadPlan.Plan | sync_onedrive.py:87-89 | A non-empty walk starts with a token request. |
| UploadPlan.EntryActionsLayout | sync_onedrive.py:89-105 | One walk root's actions in order: its token request, then one folder creation per subdirectory in walk order, then for each file in walk order a token request immediately followed by its upload. Every folder of a root is created under the root's own token and before any of its files. |
| UploadPlan.PlanSlice | sync_onedrive.py:87-108 | The plan is the roots' actions back to back: the actions of root `w` occupy exactly the positions between the action counts of the first `w` and the first `w + 1` roots. |
| UploadPlan.PlanCoversWalk | sync_onedrive.py:87-108 | The plan uploads exactly the walk's files, once each and in walk order, to `remote root + "/" + name`. It creates exactly the walk's subdirectories, in order. It asks for a token once per walk root plus once per file. |
| UploadPlan.UploadFollowsToken | sync_onedrive.py:103-105 | Every upload in the plan comes immediately after a token request. |
| UploadPlan.ExampleWalk | sync_onedrive.py:84-108 | A walk of `/home/me/root` with `a.txt` at the top and `sub/b.bin` gives the expected seven-action trace under `root`. |
| UploadPlan.TrailingSlashFolder | sync_onedrive.py:84-108 | A local folder path ending in '/' has an empty basename. Its subdirectories then map to bare names, and its top-level files map to item paths that start with '/'. |
| Sync.Execute | sync_onedrive.py:83-127 | Event `i` of the log answers action `i` of the plan. The requests carry the current token and did not raise. Folder creation succeeds iff the status is 201. An upload succeeds iff the status is 200 or 201. With no failure the log covers the whole plan, and a log that falls short always comes with a failure. A token failure sits at a token request. A raised request sits at a folder creation or upload whose reply says it raised. An unreadable error body follows an upload that failed with that reply. |
| Sync.UploadFolder | sync_onedrive.py:83-127 | `upload_folder` opens with a token request and covers every planned action unless something raised. Which requests it sends is stated by `RunCoversWalk`, and which tokens they carry by `RequestsCarryIssuedTokens`. |
| Sync.ExecuteRunsTokenManager | sync_onedrive.py:89-105 | The run drives the one token manager exactly as direct calls would. The calls are those of the token requests the run reached, with their clock readings and backend answers. The run hands out the tokens those calls return, and the manager ends in the state they leave. A token failure is the error the calls raise. |
| Sync.StatusesDoNotSteer | sync_onedrive.py:101-127 | As long as failed uploads have readable error bodies, status codes never change which requests are sent, which tokens are handed out, or how the run ends. |
| Sync.UnreadableBodySteers | sync_onedrive.py:124-127 | Where a failed upload's body is not JSON, the status does steer the run: the same upload ends the run with status 500 and does not with status 200. |
| Sync.ExecuteRequestsCarryIssuedTokens | sync_onedrive.py:89-105 | When a plan starts with a token request, every request carries a token handed out earlier in the run. |
| Sync.ExecuteUploadsCarryFreshToken | sync_onedrive.py:105-118 | When every upload follows a token request, every upload carries the token handed out immediately before it. |
| Sync.RequestsCarryIssuedTokens | sync_onedrive.py:89-118 | In `upload_folder`, every request carries a token issued earlier in the run, and every upload carries the one issued just before it. |
| Sync.ExecuteFollowsPlan | sync_onedrive.py:98-127 | A run sends the plan's uploads and folder creations in plan order. It sends all of them when nothing raises, and an initial part of each otherwise. |
| Sync.RunCoversWalk | sync_onedrive.py:87-127 | If nothing raises, `upload_folder` PUTs to exactly the content URLs of the walk's files and creates exactly its subdirectories, in walk order. A run cut short by an exception has sent a prefix of each. |
| Sync.RunPutsFileTargets | sync_onedrive.py:103-118 | The `k`-th upload a run sends, whether complete or cut short, goes to the content URL of the walk's `k`-th file. |

## Left out

- Configuration constants, the `sync_files` entry point and `__main__`: the account id and destination folder are a `Config` value.
- The MSAL client and `acquire_token_for_client`: their answer is an input, `Granted(token, expires_in)` or `Rejected(error, description)`. Any caching inside MSAL is invisible here.
- HTTP through `requests`, opening and streaming files, and `response.json()`. A request is a value. Its status code, whether the call raised, and whether a failed upload's body parses are inputs. The exception's type and message are not modelled.
- `print` logging of progress, errors and error descriptions.
- `os.walk` itself: its output is an input sequence, so visiting order, symlinks and unreadable directories are the caller's business.
- `os.path.relpath`: the walk supplies each root already made relative. The script computes it against the configured `UPLOAD_FOLDER`, not the `local_folder_path` argument, and the two coincide only in the `sync_files` call.
- `datetime` arithmetic: time is whole seconds on one clock. Naive local time, daylight-saving jumps and a fractional `expires_in` are not modelled.
- `upload_file`'s return value: the model builds its request but does not pair it with the status and JSON body it returns. `upload_folder` never calls it.
- Concurrency: the script is single-threaded.
- TokenManager.RunCalls: its own contract states only bounds on what a sequence of calls returns. Reuse and the number of refreshes are stated by `BurstWithinBufferReuses` and `BurstAcquiresOnce`.
- UploadPlan.Plan: its own contract states only the length and the first action. Every action by its position is stated by `PlanSlice` together with `EntryActionsLayout`; the projections by `PlanCoversWalk`.
- UploadPlan.FolderActions: its own contract states the count and kind of its actions. Which folders it creates is stated by `FolderActionsAt` and `PlanCoversWalk`.
- UploadPlan.FileActions: its own contract states the length and the leading token request. What it uploads is stated by `FileActionsAt` and `PlanCoversWalk`.
- UploadPlan.EntryActions: its own contract states the count and the leading token request. Its actions by position are stated by `EntryActionsLayout`, its targets by `EntryProjections`.
- `os.path` is taken to be POSIX `posixpath`, with '/' as the only separator. On Windows, `ntpath` would also split on `\`, honour drive letters, and join with `\`. Then sync_onedrive.py:96 would yield `root\sub`.
- HTTP-level URL handling: URLs are the f-strings as built. `requests` percent-encodes them and treats `?` and `#` as the start of a query or fragment. A file named `a#1.txt` therefore goes to `…/a` on the wire. The URL lemmas speak of the strings, not of the requests sent.

## Notes on the script

- The folder-creation request names the folder by its full relative path, both in the `children` URL and in the body's `name`.
- Nothing in `upload_folder` retries: the first exception ends the run.
