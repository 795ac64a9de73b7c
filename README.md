# RepoSync, modelled in Dafny

RepoSync mirrors every file of a GitHub repository onto the local disk and can be
interrupted and restarted without starting over. It works in four parts:

- `extract_repo_details` turns the repository's web URL into an owner and a name.
- `create_repo_map` walks the repository through the contents API, depth first. It
  flattens the tree into two index-aligned lists: download URLs and save paths. After
  each directory it rewrites a checkpoint (`map_state.json`) holding both lists and the
  directories it has finished.
- `download_files` pairs the two lists. For each pair it asks for the file's size with
  a HEAD request, resumes from the size recorded in `download_state.json`, and records
  the HEAD size afterwards.
- `download_file` fetches a file smaller than `CHUNK_SIZE` (100 × 1024 bytes) with one
  GET and overwrites the local file. A larger file is fetched as consecutive ranged
  GETs of at most `CHUNK_SIZE` bytes, starting at the resume offset, each appended to
  the local file. The first failure stops the loop, and it is logged, not raised.

The model is imperative where the program is. The local disk, the two checkpoint files
and the contents endpoint are classes whose methods update their fields:

- `LocalDisk.Disk` holds a map from path to bytes.
- `RepoMap.MapStore` and `Driver.DownloadStore` hold the list of every state written.
- `RepoMap.Remote` holds the list of every path listed.

The methods `DownloadFile`, `CreateRepoMap`, `DownloadPairs` and `DownloadFiles` follow
the program's loops and recursion. Each is proved equal to a pure specification function
of the old state (`Download`, `MapDir`, `DriveAll`). The lemmas state the program's
properties about those functions.

The file server is a function `get` from request to response. HEAD requests are a
function `head` from URL to the reported size or the error the request raised. The listing endpoint is a function from path to listing. The remote
tree is assumed finite: a ghost `rank` must decrease from each directory to its
subdirectories.

Modules:

- `Wrappers`: `Option` and `Result`.
- `Strings`: `rstrip` and `split` on one character.
- `Http`: bytes, requests, and the text of a Range header.
- `LocalDisk`: the disk.
- `RangeDownload`: `download_file`.
- `RepoMap`: `create_repo_map` and its stores.
- `MapScenarios`: two concrete walks.
- `Driver`: `download_files`.
- `RepoUrl`: `extract_repo_details`.

The behaviour modelled is the code's, including these consequences of it that are easy
to miss:

- The chunk size is `100 * 1024` = 102400 bytes. The "100 KB" comment beside
  `CHUNK_SIZE` (reposync.py:8) could be read as 100000.
- Each directory's checkpoint save overwrites the one its subdirectories wrote. After a
  full walk, `processed_dirs` records only the root (`MapScenarios.NestedWalk`).
- A subdirectory call reloads the checkpoint and returns the lists accumulated so far.
  The parent then appends those lists to its own, so sibling directories duplicate
  entries (`MapScenarios.SiblingWalkDuplicates`).
- A file is recorded with its HEAD size even when its download failed
  (`Driver.RecordedDespiteFailure`).
- A HEAD request that raises is not caught. It ends `download_files` with that error
  before the pair is downloaded or saved (`Driver.DriveResult`).

## Model

| member | source | states |
|---|---|---|
| Strings.RStrip | reposync.py:127 | the result is a prefix of the input that does not end in the character, and everything cut off is that character |
| Strings.SplitSeparatorFree | reposync.py:127 | no piece of `split('/')` contains '/' |
| Strings.SplitJoinBack | reposync.py:127 | joining the pieces of a split with the separator gives back the string |
| Strings.SplitCount | reposync.py:127-128 | a split has exactly one piece when, and only when, the string holds no separator |
| Strings.SplitJoin | reposync.py:127 | splitting a join of separator-free pieces gives back those pieces, so split and join are inverse |
| Http.RangeHeaderRoundTrip | reposync.py:76 | the header `bytes=<first>-<last>` parses back to exactly the range it was made from |
| LocalDisk.Disk.Overwrite | reposync.py:67-70 | opening in mode 'wb' and writing sets that one file to the body and leaves every other file alone |
| LocalDisk.Disk.Append | reposync.py:79-82 | opening in mode 'ab' and writing sets that one file to its old content (empty if absent) followed by the body |
| RangeDownload.PlanShape | reposync.py:74-83 | the chunk ranges are non-empty and lie inside the file; each ends at start+CHUNK_SIZE-1 or at the last byte; all but the last hold exactly CHUNK_SIZE bytes; they are contiguous from the start offset to size-1; there are none exactly when start >= size |
| RangeDownload.PlanCovers | reposync.py:74-83 | the ranges together name every offset from the start offset to size-1, each once and in increasing order |
| RangeDownload.PlanCount | reposync.py:74-75 | the number of ranged GETs is ceil((size - start) / CHUNK_SIZE), and 0 when start >= size |
| RangeDownload.ResumeScenario | reposync.py:74-83 | a 500000-byte file resumed at 250000 takes exactly the ranges 250000-352399, 352400-454799 and 454800-499999 |
| RangeDownload.DownloadFile | reposync.py:58-88 | running download_file on the disk sends exactly the requests, and leaves exactly the files, that the specification `Download` gives for the old disk |
| RangeDownload.RunPlanIssued | reposync.py:74-88 | the loop sends a prefix of the planned ranged GETs in plan order; every GET before the last one sent succeeded; the last one failed exactly when the loop stopped early |
| RangeDownload.RunPlanComplete | reposync.py:74-83 | the loop gets through the whole plan exactly when no planned GET fails |
| RangeDownload.RunPlanBodies | reposync.py:79-82 | what the loop appends is the bodies of the successful GETs, in the order they were sent |
| RangeDownload.RunPlanLog | reposync.py:74-88 | the three facts above together |
| RangeDownload.ChunkedBranch | reposync.py:74-83 | for a large file the GETs are a prefix of the planned ranges, and all of them when none fails; the local file only grows, ending as its old content followed by the successful bodies; it is untouched when the first GET fails; no other file changes and no file disappears |
| RangeDownload.NoOpResume | reposync.py:74 | a large file whose start offset has reached its size gets no request, and no file changes |
| RangeDownload.SmallFileBranch | reposync.py:64-71 | a small file gets exactly one unranged GET whatever the start offset; on success the file is overwritten with the body, and on failure nothing changes |
| RangeDownload.ResumeCompletes | reposync.py:58-83 | against a server holding `content` of the reported size, a resume over a local file holding the first start-offset bytes (or any download of a small file) leaves exactly `content`; a large file gets exactly the planned ranges |
| RepoMap.MapStore.Load | reposync.py:27-31 | load_map_state returns the last state saved, or empty lists when nothing was saved |
| RepoMap.MapStore.Save | reposync.py:22-24 | save_map_state replaces the whole checkpoint, so the next load returns exactly the saved state |
| RepoMap.Remote.GetRepoContents | reposync.py:11-19 | one listing call for the path, logged, returning the endpoint's listing or its error |
| RepoMap.CreateRepoMap | reposync.py:34-55 | the recursive walk returns the result, and leaves the checkpoint writes and listing calls, that the specification `MapDir` gives for the old state |
| RepoMap.MapDirGrows | reposync.py:40-53 | the checkpoint writes and listing calls only grow; a successful walk makes as many checkpoint writes as listing calls |
| RepoMap.MapDirFinishes | reposync.py:40-53 | a successful walk writes the checkpoint once per directory it lists: the directories its new writes finish (the last processed_dirs entry of each) are exactly the directories it listed, each as often |
| RepoMap.MapDirRecords | reposync.py:35-53 | after a successful walk of an unprocessed directory, the checkpoint holds the returned lists and the loaded processed_dirs plus that directory; a skipped walk changes nothing; a failed walk records only directories below it |
| RepoMap.FailClosed | reposync.py:40-53 | if listing the directory fails, the error comes back after one call and no checkpoint write; any failure in the subtree leaves the directory unrecorded |
| RepoMap.MapDirAligned | reposync.py:36-53 | if the loaded checkpoint has as many save paths as download URLs, so does every checkpoint the walk writes (each being what a rerun after an interruption loads) and every returned list, and the loaded lists are a prefix of the returned ones |
| RepoMap.MapDirPairsFiles | reposync.py:42-51 | after a successful walk of an unprocessed directory, the file entries of its listing stand in the returned lists in listing order, at strictly increasing indices beyond the loaded lists, each with its download URL and path at the same index |
| RepoMap.MapDirGenuine | reposync.py:40-53 | if at every index the loaded checkpoint holds the download URL and the path of one and the same listed file, so does every checkpoint the walk writes, the one it leaves, and the lists it returns, subdirectory lists carried in by `extend` included |
| RepoMap.PairsInOrderPlaces | reposync.py:43-45 | each file entry so placed has an index at or beyond the starting one where its download URL and its path stand together |
| RepoMap.SkipProcessed | reposync.py:40-55 | a directory already in processed_dirs is not listed, nothing is written, and the loaded lists come back unchanged |
| RepoMap.MapItemsLeaf | reposync.py:42-46 | a listing without subdirectories appends the URLs and paths of its file entries in listing order and skips the other entries |
| RepoMap.LeafDirectory | reposync.py:34-55 | walking a directory without subdirectories makes one listing call and one checkpoint write, and returns the loaded lists followed by its files in listing order |
| MapScenarios.NestedWalk | reposync.py:34-55 | walking README.md plus src/a.py plus an empty src/tests sends the calls "", "src", "src/tests" and writes three checkpoints; the final checkpoint records only "" as processed |
| MapScenarios.SiblingWalkDuplicates | reposync.py:47-51 | with sibling directories a/ and b/, the walk maps a/x twice, because b/'s call returns the lists a/ saved |
| Driver.DownloadStore.Load | reposync.py:96-100 | load_download_state returns the last state saved, or the empty map |
| Driver.DownloadStore.Save | reposync.py:91-93 | save_download_state replaces the whole state |
| Driver.Pairs | reposync.py:107 | zip pairs the i-th URL with the i-th path, up to the shorter list |
| Driver.DownloadPairs | reposync.py:107-123 | the loop returns the result, and leaves exactly the files and the sequence of saved states, that the specification `DriveAll` gives, a raising HEAD included |
| Driver.DownloadFiles | reposync.py:103-123 | the mapper runs first; its error propagates with no download and no state saved; otherwise the pairs are processed as `DriveAll` gives, from the state loaded before mapping, and its result is returned |
| Driver.SavedIgnoresDownloads | reposync.py:108-123 | the states saved depend only on the HEAD results, whatever each download did |
| Driver.DriveResult | reposync.py:107-123 | the loop ends normally exactly when it saved once per pair; otherwise it ends with the error of the HEAD of the first pair not saved, and every earlier HEAD succeeded |
| Driver.CheckpointsInOrder | reposync.py:107-123 | one save per pair, in index order, up to the first failing HEAD, which gets none; each saved state is the previous one with only that pair's save path set to its HEAD size |
| Driver.FinalUntouched | reposync.py:114-123 | after the loop, a key that no pair names keeps its loaded value, or stays absent |
| Driver.FinalRecordsLast | reposync.py:108-123 | after the loop, the save path of a pair that was reached (its HEAD and all earlier ones succeeded) and that no later pair names maps to the HEAD size of that pair's URL |
| Driver.StepResumesFromRecord | reposync.py:114-122 | a file resumes from its recorded size, or 0 if it was never recorded; afterwards only its key changes, to its HEAD size |
| Driver.StepCompletesFile | reposync.py:108-122 | against an honest server, a file whose local copy holds exactly the recorded bytes ends complete, and its record equals its local size |
| Driver.RecordedDespiteFailure | reposync.py:87-122 | when every GET fails, the local file is unchanged, yet its HEAD size is recorded as downloaded |
| RepoUrl.ExtractRepoDetails | reposync.py:126-130 | a URL is accepted exactly when, with trailing '/' removed, it still holds a '/' and one segment is exactly "github.com"; otherwise the error is "Invalid GitHub repository URL"; an accepted URL gives its last two whole segments: both free of '/', the stripped URL ends with owner + "/" + name, and a '/' or the start of the URL comes right before the owner |
| RepoUrl.LastTwoSegments | reposync.py:127-130 | a split has at least two pieces exactly when the string holds a '/'; the last two pieces are then free of '/', end the string joined by a '/', and the first of them starts the string or follows a '/' |
| RepoUrl.UrlSegments | reposync.py:127 | the segments of https://host/owner/name, with or without one trailing '/', are "https:", "", host, owner and name |
| RepoUrl.AcceptsRepositoryUrl | reposync.py:126-130 | https://github.com/owner/name, with or without a trailing '/', gives (owner, name) |
| RepoUrl.RefusesLookalikeHost | reposync.py:128-129 | a host that only contains "github.com" as a substring is refused |
| RepoUrl.OwnerOnlyUrl | reposync.py:128-130 | only the last two segments are taken: https://github.com/owner gives ("github.com", owner) |

## Left out

- HTTP streaming is not modelled: neither the 8192-byte `iter_content` pieces nor the
  empty-piece filter. A response is a whole body or an error, so a failure in the middle
  of a body is treated as failing before any of it was written.
- The `Range: bytes=<start>-` header built at the top of `download_file` is never sent,
  so it is not modelled. The RFC 9110 range text that is sent is modelled by
  `Http.RangeHeader`.
- The request URL, the Authorization header and the access token of
  `get_repo_contents` are not modelled. The listing endpoint is a function from path to
  listing, and an unsuccessful status is its error. A successful response that is not a
  list, or an entry without a `type`, is not modelled.
- JSON encoding of both checkpoint files and the file-existence test of the loaders are
  not modelled. A store is the list of states written to it.
- A downloaded state is modelled as the map from save path to `downloaded_size`, not as
  the nested dictionary.
- `os.path.join('downloads', save_path)` is modelled as `"downloads/" + save_path`, which
  is exact for the relative paths the listing returns. `os.makedirs` is not modelled:
  directories are implicit in the disk map.
- Parsing `Content-Length` with `int()` is not modelled. A successful HEAD result is a
  natural number, with 0 when the header is missing. A negative or malformed value
  (where `int()` would accept or raise) falls outside the model.
- `print` calls, the `input` prompts, `exit` and the `__main__` block are not part of
  this model. Neither is the logging of the caught `RequestException`: it is modelled as
  the loop stopping normally.
- Only `RequestException` is caught by `download_file`. Other exceptions, such as
  failures to open files, are not modelled.
- Termination of the walk relies on the remote tree being finite, which is stated by
  the `RepoMap.Finite` requirement on a ghost rank. The endpoint is also assumed to
  answer the same path the same way every time.
- `RangeDownload.DownloadFile` returns the list of requests it sent. This is only a
  device for stating what was sent; the program returns nothing.
