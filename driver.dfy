/** download_files: map the repository, then for each (download URL, save path) pair take
    the size HEAD reports, resume from the recorded size, and record the HEAD size. */
module Driver {
  import opened Wrappers
  import opened Http
  import opened LocalDisk
  import opened RangeDownload
  import opened RepoMap

  /** The content of download_state.json: save path to downloaded_size. */
  type DownloadState = map<string, nat>

  /** What load_download_state returns after the writes `writes`. */
  function LoadedState(writes: seq<DownloadState>): DownloadState
  {
    if writes == [] then map[] else writes[|writes| - 1]
  }

  /** The download checkpoint file, kept as the list of every state written to it. */
  class DownloadStore {
    var writes: seq<DownloadState>

    constructor ()
      ensures writes == []
    {
      writes := [];
    }

    /** load_download_state */
    method Load() returns (state: DownloadState)
      ensures state == LoadedState(writes)
    {
      state := LoadedState(writes);
    }

    /** save_download_state */
    method Save(state: DownloadState)
      modifies this
      ensures writes == old(writes) + [state]
      ensures LoadedState(writes) == state
    {
      writes := writes + [state];
    }
  }

  /** os.path.join('downloads', save_path) for the relative paths the listing gives. */
  function LocalPath(savePath: string): string
  {
    "downloads/" + savePath
  }

  /** The offset a file's download resumes from: its recorded size, or 0. */
  function StartOffset(state: DownloadState, savePath: string): nat
  {
    if savePath in state then state[savePath] else 0
  }

  /** zip(download_paths, save_paths): pairs up to the shorter list. */
  function Pairs(urls: seq<string>, paths: seq<string>): (pairs: seq<(string, string)>)
    ensures |pairs| == Min(|urls|, |paths|)
    ensures forall i :: 0 <= i < |pairs| ==> pairs[i] == (urls[i], paths[i])
  {
    seq(Min(|urls|, |paths|), i requires 0 <= i < Min(|urls|, |paths|) => (urls[i], paths[i]))
  }

  /** The local files and the download state. */
  datatype Progress = Progress(files: map<string, seq<Byte>>, state: DownloadState)

  /** The loop body for (url, savePath) once HEAD has reported `fileSize`: download from the
      recorded offset, then record the HEAD size. */
  function Step(get: Request -> Response, url: string, savePath: string, fileSize: nat,
                files: map<string, seq<Byte>>, state: DownloadState): Progress
  {
    var out := Download(get, url, files, LocalPath(savePath), fileSize, StartOffset(state, savePath));
    Progress(out.files, state[savePath := fileSize])
  }

  /** The local files after the loop, the state saved after each file in order, and how the
      loop ended: normally, or with the error a HEAD request raised. */
  datatype Drive = Drive(files: map<string, seq<Byte>>, saved: seq<DownloadState>, result: Result<(), HttpError>)

  /** The loop of download_files over `pairs`. `head` gives the size a HEAD request reports
      (0 when it has no Content-Length), or the error it raised; nothing catches that error,
      so it ends the loop before the pair is downloaded or saved. */
  function DriveAll(get: Request -> Response, head: string -> Result<nat, HttpError>,
                    pairs: seq<(string, string)>, files: map<string, seq<Byte>>, state: DownloadState): Drive
    decreases |pairs|
  {
    if pairs == [] then Drive(files, [], Ok(()))
    else
      match head(pairs[0].0)
      case Err(e) => Drive(files, [], Err(e))
      case Ok(fileSize) =>
        var next := Step(get, pairs[0].0, pairs[0].1, fileSize, files, state);
        var rest := DriveAll(get, head, pairs[1..], next.files, next.state);
        Drive(rest.files, [next.state] + rest.saved, rest.result)
  }

  lemma LoopStep(get: Request -> Response, head: string -> Result<nat, HttpError>, pairs: seq<(string, string)>,
                 before: map<string, seq<Byte>>, after: map<string, seq<Byte>>, state: DownloadState,
                 saved: seq<DownloadState>, whole: Drive, fileSize: nat)
    requires pairs != [] && head(pairs[0].0) == Ok(fileSize)
    requires var rest := DriveAll(get, head, pairs, before, state);
      whole == Drive(rest.files, saved + rest.saved, rest.result)
    requires var (url, savePath) := pairs[0];
      after == Download(get, url, before, LocalPath(savePath), fileSize, StartOffset(state, savePath)).files
    ensures var next := state[pairs[0].1 := fileSize];
      var rest := DriveAll(get, head, pairs[1..], after, next);
      whole == Drive(rest.files, saved + [next] + rest.saved, rest.result)
  {
    var next := state[pairs[0].1 := fileSize];
    var rest := DriveAll(get, head, pairs[1..], after, next);
    assert DriveAll(get, head, pairs, before, state) == Drive(rest.files, [next] + rest.saved, rest.result);
    assert saved + ([next] + rest.saved) == saved + [next] + rest.saved;
  }

  /** The `for` loop of download_files over zip(urls, paths), from the loaded state. */
  method DownloadPairs(downloadStore: DownloadStore, disk: Disk, get: Request -> Response,
                       head: string -> Result<nat, HttpError>,
                       urls: seq<string>, paths: seq<string>, loaded: DownloadState)
    returns (result: Result<(), HttpError>)
    modifies downloadStore, disk
    ensures var d := DriveAll(get, head, Pairs(urls, paths), old(disk.files), loaded);
      result == d.result && disk.files == d.files && downloadStore.writes == old(downloadStore.writes) + d.saved
  {
    var state := loaded;
    ghost var pairs := Pairs(urls, paths);
    ghost var whole := DriveAll(get, head, pairs, disk.files, state);
    ghost var saved: seq<DownloadState> := [];
    for i := 0 to Min(|urls|, |paths|)
      invariant downloadStore.writes == old(downloadStore.writes) + saved
      invariant var rest := DriveAll(get, head, pairs[i..], disk.files, state);
        whole == Drive(rest.files, saved + rest.saved, rest.result)
    {
      var downloadUrl, savePath := urls[i], paths[i];
      assert pairs[i..][0] == (downloadUrl, savePath) && pairs[i..][1..] == pairs[i + 1..];
      var fileInfo := head(downloadUrl);
      if fileInfo.Err? {
        assert saved + [] == saved;
        return Err(fileInfo.error);
      }
      var fileSize := fileInfo.value;
      var localPath := LocalPath(savePath);
      var downloadedSize := if savePath in state then state[savePath] else 0;
      ghost var before := disk.files;
      var _ := DownloadFile(disk, get, downloadUrl, localPath, fileSize, downloadedSize);
      LoopStep(get, head, pairs[i..], before, disk.files, state, saved, whole, fileSize);
      state := state[savePath := fileSize];
      downloadStore.Save(state);
      saved := saved + [state];
    }
    assert pairs[Min(|urls|, |paths|)..] == [];
    assert saved + [] == saved;
    return Ok(());
  }

  /** download_files, against the two checkpoint stores, the listing endpoint, the local
      disk, the file server `get` and the HEAD results `head`. An error of the mapper
      propagates before any file is downloaded; an error of a HEAD request propagates from
      the loop. */
  method DownloadFiles(mapStore: MapStore, remote: Remote, downloadStore: DownloadStore, disk: Disk,
                       get: Request -> Response, head: string -> Result<nat, HttpError>, ghost rank: string -> nat)
    returns (result: Result<(), HttpError>)
    requires Finite(remote.contents, rank)
    modifies mapStore, remote, downloadStore, disk
    ensures var run := MapDir(remote.contents, rank, "", Trace(old(mapStore.writes), old(remote.calls)));
      && Trace(mapStore.writes, remote.calls) == run.trace
      && match run.result
         case Err(e) =>
           result == Err(e) && downloadStore.writes == old(downloadStore.writes) && disk.files == old(disk.files)
         case Ok(lists) =>
           var d := DriveAll(get, head, Pairs(lists.downloadPaths, lists.savePaths), old(disk.files),
                             LoadedState(old(downloadStore.writes)));
           result == d.result && disk.files == d.files && downloadStore.writes == old(downloadStore.writes) + d.saved
  {
    var state := downloadStore.Load();
    var mapped := CreateRepoMap(mapStore, remote, "", rank);
    if mapped.Err? {
      return Err(mapped.error);
    }
    result := DownloadPairs(downloadStore, disk, get, head, mapped.value.downloadPaths, mapped.value.savePaths, state);
  }

  /** The states saved after each pair until the first HEAD failure: each records the HEAD
      size for the pair's save path. */
  function Checkpoints(head: string -> Result<nat, HttpError>, pairs: seq<(string, string)>,
                       state: DownloadState): seq<DownloadState>
    decreases |pairs|
  {
    if pairs == [] then []
    else
      match head(pairs[0].0)
      case Err(_) => []
      case Ok(fileSize) =>
        var next := state[pairs[0].1 := fileSize];
        [next] + Checkpoints(head, pairs[1..], next)
  }

  /** The saved states depend only on the HEAD results: whatever each download did (a failed
      GET included), the size recorded afterwards is the HEAD size. */
  lemma {:induction false} SavedIgnoresDownloads(get: Request -> Response, head: string -> Result<nat, HttpError>,
                                                 pairs: seq<(string, string)>, files: map<string, seq<Byte>>,
                                                 state: DownloadState)
    ensures DriveAll(get, head, pairs, files, state).saved == Checkpoints(head, pairs, state)
    decreases |pairs|
  {
    if pairs != [] && head(pairs[0].0).Ok? {
      var next := Step(get, pairs[0].0, pairs[0].1, head(pairs[0].0).value, files, state);
      SavedIgnoresDownloads(get, head, pairs[1..], next.files, next.state);
    }
  }

  /** The loop ends normally exactly when it saved once for every pair; otherwise it ends
      with the error of the HEAD request of the first pair it did not save, and every pair
      before that one had a successful HEAD. */
  lemma {:induction false} DriveResult(get: Request -> Response, head: string -> Result<nat, HttpError>,
                                       pairs: seq<(string, string)>, files: map<string, seq<Byte>>,
                                       state: DownloadState)
    ensures var d := DriveAll(get, head, pairs, files, state);
      && |d.saved| <= |pairs|
      && (forall i :: 0 <= i < |d.saved| ==> head(pairs[i].0).Ok?)
      && (d.result.Ok? <==> |d.saved| == |pairs|)
      && (d.result.Err? ==> head(pairs[|d.saved|].0) == Err(d.result.error))
    decreases |pairs|
  {
    if pairs != [] && head(pairs[0].0).Ok? {
      var next := Step(get, pairs[0].0, pairs[0].1, head(pairs[0].0).value, files, state);
      DriveResult(get, head, pairs[1..], next.files, next.state);
      var d, rest := DriveAll(get, head, pairs, files, state), DriveAll(get, head, pairs[1..], next.files, next.state);
      assert d.saved == [next.state] + rest.saved;
      assert forall i :: 0 < i < |d.saved| ==> pairs[i] == pairs[1..][i - 1];
      if d.result.Err? {
        assert pairs[|d.saved|] == pairs[1..][|rest.saved|];
      }
    }
  }

  /** Pairs are processed in index order, up to the first failing HEAD: one save per pair
      reached, the i-th saved state being the previous one (the loaded state for the first)
      with the i-th save path set to the HEAD size of the i-th URL, and no other key
      changed. */
  lemma {:induction false} CheckpointsInOrder(head: string -> Result<nat, HttpError>, pairs: seq<(string, string)>,
                                              state: DownloadState)
    ensures var c := Checkpoints(head, pairs, state);
      && |c| <= |pairs|
      && (forall i :: 0 <= i < |c| ==> head(pairs[i].0).Ok?)
      && (|c| < |pairs| ==> head(pairs[|c|].0).Err?)
      && (c != [] ==> c[0] == state[pairs[0].1 := head(pairs[0].0).value])
      && forall i :: 0 < i < |c| ==> c[i] == c[i - 1][pairs[i].1 := head(pairs[i].0).value]
    decreases |pairs|
  {
    if pairs != [] && head(pairs[0].0).Ok? {
      var next := state[pairs[0].1 := head(pairs[0].0).value];
      CheckpointsInOrder(head, pairs[1..], next);
      var c, tail := Checkpoints(head, pairs, state), Checkpoints(head, pairs[1..], next);
      assert c == [next] + tail;
      assert forall i :: 0 < i < |c| ==> c[i] == tail[i - 1] && pairs[i] == pairs[1..][i - 1];
      if |c| < |pairs| {
        assert pairs[|c|] == pairs[1..][|tail|];
      }
    }
  }

  /** The state after the loop: the loaded state when nothing was saved, else the last save. */
  function FinalState(saved: seq<DownloadState>, loaded: DownloadState): DownloadState
  {
    if saved == [] then loaded else saved[|saved| - 1]
  }

  /** After the loop, a key that no pair names keeps its loaded value, or stays absent. */
  lemma {:induction false} FinalUntouched(head: string -> Result<nat, HttpError>, pairs: seq<(string, string)>,
                                          state: DownloadState, k: string)
    requires forall j :: 0 <= j < |pairs| ==> pairs[j].1 != k
    ensures var last := FinalState(Checkpoints(head, pairs, state), state);
      (k in last <==> k in state) && (k in state ==> last[k] == state[k])
    decreases |pairs|
  {
    if pairs != [] && head(pairs[0].0).Ok? {
      var next := state[pairs[0].1 := head(pairs[0].0).value];
      assert forall j :: 0 <= j < |pairs| - 1 ==> pairs[1..][j] == pairs[j + 1];
      FinalUntouched(head, pairs[1..], next, k);
      assert FinalState(Checkpoints(head, pairs, state), state) == FinalState(Checkpoints(head, pairs[1..], next), next);
    }
  }

  /** After the loop, the save path of a pair that was reached (its HEAD and every earlier
      one succeeded) and that no later pair names maps to the HEAD size of that pair's URL. */
  lemma {:induction false} FinalRecordsLast(head: string -> Result<nat, HttpError>, pairs: seq<(string, string)>,
                                            state: DownloadState, j: nat)
    requires j < |pairs|
    requires forall l :: 0 <= l <= j ==> head(pairs[l].0).Ok?
    requires forall l :: j < l < |pairs| ==> pairs[l].1 != pairs[j].1
    ensures var last := FinalState(Checkpoints(head, pairs, state), state);
      pairs[j].1 in last && last[pairs[j].1] == head(pairs[j].0).value
    decreases |pairs|
  {
    assert head(pairs[0].0).Ok?;
    var next := state[pairs[0].1 := head(pairs[0].0).value];
    var tail := pairs[1..];
    assert forall l :: 0 <= l < |tail| ==> tail[l] == pairs[l + 1];
    assert FinalState(Checkpoints(head, pairs, state), state) == FinalState(Checkpoints(head, tail, next), next);
    if j == 0 {
      FinalUntouched(head, tail, next, pairs[0].1);
    } else {
      FinalRecordsLast(head, tail, next, j - 1);
    }
  }

  /** One file: the download resumes from the recorded size (0 for a path never recorded),
      and afterwards the state maps the save path to the HEAD size and every other key as
      before. */
  lemma StepResumesFromRecord(get: Request -> Response, url: string, savePath: string, fileSize: nat,
                              files: map<string, seq<Byte>>, state: DownloadState)
    ensures var next := Step(get, url, savePath, fileSize, files, state);
      && next.files == Download(get, url, files, LocalPath(savePath), fileSize,
                                if savePath in state then state[savePath] else 0).files
      && next.state.Keys == state.Keys + {savePath}
      && next.state[savePath] == fileSize
      && forall k :: k in state && k != savePath ==> next.state[k] == state[k]
  {
  }

  /** Against a server that serves `content` at `url`, with HEAD reporting its size, a file
      whose local copy holds exactly the recorded number of bytes ends complete, and the
      record then matches the file again. */
  lemma StepCompletesFile(get: Request -> Response, url: string, savePath: string, fileSize: nat,
                          content: seq<Byte>, files: map<string, seq<Byte>>, state: DownloadState)
    requires Serves(get, url, content) && fileSize == |content|
    requires StartOffset(state, savePath) <= |content|
    requires Contents(files, LocalPath(savePath)) == content[..StartOffset(state, savePath)]
    ensures var next := Step(get, url, savePath, fileSize, files, state);
      && next.files == files[LocalPath(savePath) := content]
      && next.state[savePath] == |content| == |Contents(next.files, LocalPath(savePath))|
  {
    ResumeCompletes(get, url, content, files, LocalPath(savePath), StartOffset(state, savePath));
  }

  /** The completion record is written even when every GET fails: the local file is left as
      it was, yet the state claims the HEAD size for it. */
  lemma RecordedDespiteFailure(get: Request -> Response, url: string, savePath: string, fileSize: nat,
                               files: map<string, seq<Byte>>, state: DownloadState)
    requires get(Whole(url)).Err?
    requires forall first: nat, last: nat :: get(Ranged(url, first, last)).Err?
    ensures var next := Step(get, url, savePath, fileSize, files, state);
      && next.files == files
      && next.state[savePath] == fileSize
  {
    var start := StartOffset(state, savePath);
    if fileSize >= CHUNK_SIZE {
      var plan := Plan(start, fileSize);
      if plan != [] {
        assert get(Ranged(url, plan[0].first, plan[0].last)).Err?;
      }
    }
  }
}
