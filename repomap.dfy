/** create_repo_map: a depth-first walk of the remote tree that flattens it into two
    index-aligned lists (download URLs and save paths) and records finished directories
    in a checkpoint that every call reloads. */
module RepoMap {
  import opened Wrappers
  import opened Http

  /** The `type` of a listing entry: 'file', 'dir', or anything else (which is skipped). */
  datatype Kind = File | Dir | Other

  /** One entry of a directory listing. */
  datatype Entry = Entry(kind: Kind, path: string, downloadUrl: string)

  /** A directory listing, or the error that `raise_for_status` raised. */
  type Listing = Result<seq<Entry>, HttpError>

  /** The content of map_state.json. */
  datatype MapState = MapState(downloadPaths: seq<string>, savePaths: seq<string>, processedDirs: seq<string>)

  /** The two lists create_repo_map returns. */
  datatype Lists = Lists(downloadPaths: seq<string>, savePaths: seq<string>)

  /** What load_map_state returns after the checkpoint writes `writes`: the last one, or the
      empty state when nothing was saved yet. */
  function Loaded(writes: seq<MapState>): MapState
  {
    if writes == [] then MapState([], [], []) else writes[|writes| - 1]
  }

  /** The traversal checkpoint file, kept as the list of every state written to it. */
  class MapStore {
    var writes: seq<MapState>

    constructor ()
      ensures writes == []
    {
      writes := [];
    }

    /** load_map_state */
    method Load() returns (state: MapState)
      ensures state == Loaded(writes)
    {
      state := Loaded(writes);
    }

    /** save_map_state: the whole file is rewritten, so a later load sees exactly `state`. */
    method Save(state: MapState)
      modifies this
      ensures writes == old(writes) + [state]
      ensures Loaded(writes) == state
    {
      writes := writes + [state];
    }
  }

  /** The contents endpoint of the remote repository, with the paths listed so far. */
  class Remote {
    const contents: string -> Listing
    var calls: seq<string>

    constructor (contents: string -> Listing)
      ensures this.contents == contents && calls == []
    {
      this.contents := contents;
      calls := [];
    }

    /** get_repo_contents: one GET of the listing of `path`. */
    method GetRepoContents(path: string) returns (listing: Listing)
      modifies this
      ensures listing == contents(path)
      ensures calls == old(calls) + [path]
    {
      listing := contents(path);
      calls := calls + [path];
    }
  }

  /** The remote tree is finite: every directory in a successful listing of `path` ranks
      below `path`. */
  ghost predicate Finite(contents: string -> Listing, rank: string -> nat)
  {
    forall path, i :: contents(path).Ok? && 0 <= i < |contents(path).value| && contents(path).value[i].kind == Dir
      ==> rank(contents(path).value[i].path) < rank(path)
  }

  /** The checkpoint writes and the listing calls made so far. */
  datatype Trace = Trace(writes: seq<MapState>, calls: seq<string>)

  /** The result of a walk and the trace after it. */
  datatype Run = Run(result: Result<Lists, HttpError>, trace: Trace)

  /** create_repo_map(path) after the trace `t`. */
  function MapDir(contents: string -> Listing, rank: string -> nat, path: string, t: Trace): Run
    requires Finite(contents, rank)
    decreases rank(path), 1
  {
    var state := Loaded(t.writes);
    if path in state.processedDirs then Run(Ok(Lists(state.downloadPaths, state.savePaths)), t)
    else
      var listed := Trace(t.writes, t.calls + [path]);
      match contents(path)
      case Err(e) => Run(Err(e), listed)
      case Ok(items) =>
        var walked := MapItems(contents, rank, rank(path), items, Lists(state.downloadPaths, state.savePaths), listed);
        match walked.result
        case Err(_) => walked
        case Ok(lists) =>
          var saved := MapState(lists.downloadPaths, lists.savePaths, state.processedDirs + [path]);
          Run(Ok(lists), Trace(walked.trace.writes + [saved], walked.trace.calls))
  }

  /** The `for item in contents` loop of create_repo_map over `items`, with the lists built
      so far in `acc`. */
  function MapItems(contents: string -> Listing, rank: string -> nat, bound: nat,
                    items: seq<Entry>, acc: Lists, t: Trace): Run
    requires Finite(contents, rank)
    requires forall i :: 0 <= i < |items| && items[i].kind == Dir ==> rank(items[i].path) < bound
    decreases bound, 0, |items|
  {
    if items == [] then Run(Ok(acc), t)
    else
      var item := items[0];
      match item.kind
      case File =>
        var grown := Lists(acc.downloadPaths + [item.downloadUrl], acc.savePaths + [item.path]);
        MapItems(contents, rank, bound, items[1..], grown, t)
      case Other =>
        MapItems(contents, rank, bound, items[1..], acc, t)
      case Dir =>
        var sub := MapDir(contents, rank, item.path, t);
        match sub.result
        case Err(_) => sub
        case Ok(lists) =>
          var grown := Lists(acc.downloadPaths + lists.downloadPaths, acc.savePaths + lists.savePaths);
          MapItems(contents, rank, bound, items[1..], grown, sub.trace)
  }

  /** create_repo_map, against the checkpoint `store` and the endpoint `remote`. */
  method CreateRepoMap(store: MapStore, remote: Remote, path: string, ghost rank: string -> nat)
    returns (result: Result<Lists, HttpError>)
    requires Finite(remote.contents, rank)
    modifies store, remote
    ensures Run(result, Trace(store.writes, remote.calls))
         == MapDir(remote.contents, rank, path, Trace(old(store.writes), old(remote.calls)))
    decreases rank(path), 1
  {
    var state := store.Load();
    var downloadPaths, savePaths, processedDirs := state.downloadPaths, state.savePaths, state.processedDirs;
    if path !in processedDirs {
      var listing := remote.GetRepoContents(path);
      if listing.Err? {
        return Err(listing.error);
      }
      var items := listing.value;
      ghost var whole := MapItems(remote.contents, rank, rank(path), items, Lists(downloadPaths, savePaths),
                                  Trace(store.writes, remote.calls));
      var i := 0;
      while i < |items|
        invariant 0 <= i <= |items|
        invariant MapItems(remote.contents, rank, rank(path), items[i..], Lists(downloadPaths, savePaths),
                           Trace(store.writes, remote.calls)) == whole
      {
        var item := items[i];
        assert items[i..][0] == item && items[i..][1..] == items[i + 1..];
        if item.kind == File {
          downloadPaths := downloadPaths + [item.downloadUrl];
          savePaths := savePaths + [item.path];
        } else if item.kind == Dir {
          var sub := CreateRepoMap(store, remote, item.path, rank);
          if sub.Err? {
            return Err(sub.error);
          }
          downloadPaths := downloadPaths + sub.value.downloadPaths;
          savePaths := savePaths + sub.value.savePaths;
        }
        i := i + 1;
      }
      processedDirs := processedDirs + [path];
      store.Save(MapState(downloadPaths, savePaths, processedDirs));
    }
    return Ok(Lists(downloadPaths, savePaths));
  }

  /** The checkpoint writes and the listing calls only grow, and a walk that succeeds made
      as many checkpoint writes as listing calls. */
  lemma {:induction false} MapDirGrows(contents: string -> Listing, rank: string -> nat, path: string, t: Trace)
    requires Finite(contents, rank)
    ensures var r := MapDir(contents, rank, path, t);
      && t.writes <= r.trace.writes && t.calls <= r.trace.calls
      && (r.result.Ok? ==> |r.trace.writes| - |t.writes| == |r.trace.calls| - |t.calls|)
    decreases rank(path), 1
  {
    var state := Loaded(t.writes);
    if path !in state.processedDirs {
      var listed := Trace(t.writes, t.calls + [path]);
      if contents(path).Ok? {
        MapItemsGrows(contents, rank, rank(path), contents(path).value, Lists(state.downloadPaths, state.savePaths), listed);
      }
    }
  }

  lemma {:induction false} MapItemsGrows(contents: string -> Listing, rank: string -> nat, bound: nat,
                                         items: seq<Entry>, acc: Lists, t: Trace)
    requires Finite(contents, rank)
    requires forall i :: 0 <= i < |items| && items[i].kind == Dir ==> rank(items[i].path) < bound
    ensures var r := MapItems(contents, rank, bound, items, acc, t);
      && t.writes <= r.trace.writes && t.calls <= r.trace.calls
      && (r.result.Ok? ==> |r.trace.writes| - |t.writes| == |r.trace.calls| - |t.calls|)
      && (r.result.Ok? ==> acc.downloadPaths <= r.result.value.downloadPaths && acc.savePaths <= r.result.value.savePaths)
    decreases bound, 0, |items|
  {
    if items != [] {
      var item := items[0];
      match item.kind
      case File =>
        var grown := Lists(acc.downloadPaths + [item.downloadUrl], acc.savePaths + [item.path]);
        MapItemsGrows(contents, rank, bound, items[1..], grown, t);
      case Other =>
        MapItemsGrows(contents, rank, bound, items[1..], acc, t);
      case Dir =>
        MapDirGrows(contents, rank, item.path, t);
        var sub := MapDir(contents, rank, item.path, t);
        if sub.result.Ok? {
          var lists := sub.result.value;
          var grown := Lists(acc.downloadPaths + lists.downloadPaths, acc.savePaths + lists.savePaths);
          MapItemsGrows(contents, rank, bound, items[1..], grown, sub.trace);
        }
    }
  }

  /** The directory a checkpoint write finishes: the last one its processed_dirs names. */
  function LastDir(w: MapState): string
  {
    if w.processedDirs == [] then "" else w.processedDirs[|w.processedDirs| - 1]
  }

  /** The directories finished by a run of checkpoint writes, in write order. */
  function Finished(writes: seq<MapState>): (dirs: seq<string>)
    ensures |dirs| == |writes|
    ensures forall k :: 0 <= k < |writes| ==> dirs[k] == LastDir(writes[k])
  {
    seq(|writes|, k requires 0 <= k < |writes| => LastDir(writes[k]))
  }

  lemma FinishedAppend(a: seq<MapState>, b: seq<MapState>)
    ensures Finished(a + b) == Finished(a) + Finished(b)
  {
    assert forall k :: 0 <= k < |b| ==> (a + b)[|a| + k] == b[k];
  }

  /** The last step of a walk: listing `path` first and writing a checkpoint that finishes
      `path` last keeps the finished directories in step with the listed ones. */
  lemma FinishOne(t: Trace, listed: Trace, walked: Trace, saved: MapState, path: string)
    requires listed == Trace(t.writes, t.calls + [path])
    requires listed.writes <= walked.writes && listed.calls <= walked.calls
    requires multiset(Finished(walked.writes[|t.writes|..])) == multiset(walked.calls[|listed.calls|..])
    requires LastDir(saved) == path
    ensures multiset(Finished((walked.writes + [saved])[|t.writes|..])) == multiset(walked.calls[|t.calls|..])
  {
    assert (walked.writes + [saved])[|t.writes|..] == walked.writes[|t.writes|..] + [saved];
    FinishedAppend(walked.writes[|t.writes|..], [saved]);
    assert Finished([saved]) == [path];
    assert walked.calls[|t.calls|..] == [path] + walked.calls[|listed.calls|..];
  }

  /** Two walks in a row keep the finished directories in step with the listed ones if
      each does. */
  lemma FinishTwo(t: Trace, mid: Trace, end: Trace)
    requires t.writes <= mid.writes <= end.writes && t.calls <= mid.calls <= end.calls
    requires multiset(Finished(mid.writes[|t.writes|..])) == multiset(mid.calls[|t.calls|..])
    requires multiset(Finished(end.writes[|mid.writes|..])) == multiset(end.calls[|mid.calls|..])
    ensures multiset(Finished(end.writes[|t.writes|..])) == multiset(end.calls[|t.calls|..])
  {
    assert end.writes[|t.writes|..] == mid.writes[|t.writes|..] + end.writes[|mid.writes|..];
    assert end.calls[|t.calls|..] == mid.calls[|t.calls|..] + end.calls[|mid.calls|..];
    FinishedAppend(mid.writes[|t.writes|..], end.writes[|mid.writes|..]);
  }

  /** One checkpoint write per directory listed: the directories the new writes of a
      successful walk finish are exactly the directories it listed, each as often. */
  lemma {:induction false} MapDirFinishes(contents: string -> Listing, rank: string -> nat, path: string, t: Trace)
    requires Finite(contents, rank)
    ensures var r := MapDir(contents, rank, path, t);
      && t.writes <= r.trace.writes && t.calls <= r.trace.calls
      && (r.result.Ok? ==>
            multiset(Finished(r.trace.writes[|t.writes|..])) == multiset(r.trace.calls[|t.calls|..]))
    decreases rank(path), 1
  {
    MapDirGrows(contents, rank, path, t);
    var state := Loaded(t.writes);
    var r := MapDir(contents, rank, path, t);
    if path in state.processedDirs {
      assert r.trace == t;
    } else if contents(path).Ok? {
      var listed := Trace(t.writes, t.calls + [path]);
      var acc := Lists(state.downloadPaths, state.savePaths);
      var walked := MapItems(contents, rank, rank(path), contents(path).value, acc, listed);
      MapItemsFinishes(contents, rank, rank(path), contents(path).value, acc, listed);
      if walked.result.Ok? {
        var saved := MapState(walked.result.value.downloadPaths, walked.result.value.savePaths,
                              state.processedDirs + [path]);
        assert r.trace == Trace(walked.trace.writes + [saved], walked.trace.calls);
        FinishOne(t, listed, walked.trace, saved, path);
      }
    }
  }

  lemma {:induction false} MapItemsFinishes(contents: string -> Listing, rank: string -> nat, bound: nat,
                                            items: seq<Entry>, acc: Lists, t: Trace)
    requires Finite(contents, rank)
    requires forall i :: 0 <= i < |items| && items[i].kind == Dir ==> rank(items[i].path) < bound
    ensures var r := MapItems(contents, rank, bound, items, acc, t);
      && t.writes <= r.trace.writes && t.calls <= r.trace.calls
      && (r.result.Ok? ==>
            multiset(Finished(r.trace.writes[|t.writes|..])) == multiset(r.trace.calls[|t.calls|..]))
    decreases bound, 0, |items|
  {
    MapItemsGrows(contents, rank, bound, items, acc, t);
    if items == [] {
    } else {
      var item := items[0];
      match item.kind
      case File =>
        var grown := Lists(acc.downloadPaths + [item.downloadUrl], acc.savePaths + [item.path]);
        MapItemsFinishes(contents, rank, bound, items[1..], grown, t);
      case Other =>
        MapItemsFinishes(contents, rank, bound, items[1..], acc, t);
      case Dir =>
        MapDirFinishes(contents, rank, item.path, t);
        var sub := MapDir(contents, rank, item.path, t);
        if sub.result.Ok? {
          var lists := sub.result.value;
          var grown := Lists(acc.downloadPaths + lists.downloadPaths, acc.savePaths + lists.savePaths);
          MapItemsFinishes(contents, rank, bound, items[1..], grown, sub.trace);
          var r := MapItems(contents, rank, bound, items[1..], grown, sub.trace);
          if r.result.Ok? {
            FinishTwo(t, sub.trace, r.trace);
          }
        }
    }
  }

  /** Every directory the checkpoint records after a walk was recorded before it or ranks
      below `bound`. */
  ghost predicate RecordsBelow(rank: string -> nat, before: Trace, after: Trace, bound: int)
  {
    forall x :: x in Loaded(after.writes).processedDirs ==> x in Loaded(before.writes).processedDirs || rank(x) < bound
  }

  /** The checkpoint after a walk of `path` records what it recorded before and, beyond
      that, only directories of the subtree; a walk that succeeds leaves exactly the loaded
      list of processed directories plus `path` (the descendants' own records are
      overwritten), and a walk that fails leaves `path` unrecorded. */
  lemma {:induction false} MapDirRecords(contents: string -> Listing, rank: string -> nat, path: string, t: Trace)
    requires Finite(contents, rank)
    ensures var r := MapDir(contents, rank, path, t);
      var before := Loaded(t.writes).processedDirs;
      && (r.result.Err? ==> RecordsBelow(rank, t, r.trace, rank(path)))
      && (r.result.Ok? && path !in before ==>
            Loaded(r.trace.writes) == MapState(r.result.value.downloadPaths, r.result.value.savePaths, before + [path]))
      && (r.result.Ok? && path in before ==> r.trace == t)
    decreases rank(path), 1
  {
    var state := Loaded(t.writes);
    if path !in state.processedDirs {
      var listed := Trace(t.writes, t.calls + [path]);
      if contents(path).Ok? {
        MapItemsRecords(contents, rank, rank(path), contents(path).value, Lists(state.downloadPaths, state.savePaths), listed);
      }
    }
  }

  lemma {:induction false} MapItemsRecords(contents: string -> Listing, rank: string -> nat, bound: nat,
                                           items: seq<Entry>, acc: Lists, t: Trace)
    requires Finite(contents, rank)
    requires forall i :: 0 <= i < |items| && items[i].kind == Dir ==> rank(items[i].path) < bound
    ensures RecordsBelow(rank, t, MapItems(contents, rank, bound, items, acc, t).trace, bound)
    decreases bound, 0, |items|
  {
    if items != [] {
      var item := items[0];
      match item.kind
      case File =>
        var grown := Lists(acc.downloadPaths + [item.downloadUrl], acc.savePaths + [item.path]);
        MapItemsRecords(contents, rank, bound, items[1..], grown, t);
      case Other =>
        MapItemsRecords(contents, rank, bound, items[1..], acc, t);
      case Dir =>
        MapDirRecords(contents, rank, item.path, t);
        var sub := MapDir(contents, rank, item.path, t);
        if sub.result.Ok? {
          var lists := sub.result.value;
          var grown := Lists(acc.downloadPaths + lists.downloadPaths, acc.savePaths + lists.savePaths);
          MapItemsRecords(contents, rank, bound, items[1..], grown, sub.trace);
        }
    }
  }

  /** Fail closed: when listing `path` or any directory under it fails, the error comes back
      and the checkpoint does not record `path` as processed. */
  lemma FailClosed(contents: string -> Listing, rank: string -> nat, path: string, t: Trace)
    requires Finite(contents, rank)
    requires path !in Loaded(t.writes).processedDirs
    ensures var r := MapDir(contents, rank, path, t);
      && (contents(path).Err? ==> r == Run(Err(contents(path).error), Trace(t.writes, t.calls + [path])))
      && (r.result.Err? ==> path !in Loaded(r.trace.writes).processedDirs)
  {
    MapDirRecords(contents, rank, path, t);
  }

  /** The invariant of map_state.json: one save path per download URL. */
  ghost predicate Aligned(state: MapState)
  {
    |state.downloadPaths| == |state.savePaths|
  }

  /** Every checkpoint written after the first `from` writes is aligned. */
  ghost predicate AlignedFrom(writes: seq<MapState>, from: nat)
  {
    forall k :: from <= k < |writes| ==> Aligned(writes[k])
  }

  /** Alignment is preserved: if the checkpoint loaded at the start holds as many save paths
      as download URLs, so does every checkpoint the walk writes (each one is what a rerun
      after an interruption would load) and every list it returns, and the loaded lists
      are a prefix of the returned ones. */
  lemma {:induction false} MapDirAligned(contents: string -> Listing, rank: string -> nat, path: string, t: Trace)
    requires Finite(contents, rank)
    requires Aligned(Loaded(t.writes))
    ensures var r := MapDir(contents, rank, path, t);
      var before := Loaded(t.writes);
      && Aligned(Loaded(r.trace.writes))
      && AlignedFrom(r.trace.writes, |t.writes|)
      && (r.result.Ok? ==>
            && |r.result.value.downloadPaths| == |r.result.value.savePaths|
            && before.downloadPaths <= r.result.value.downloadPaths
            && before.savePaths <= r.result.value.savePaths)
    decreases rank(path), 1
  {
    var state := Loaded(t.writes);
    if path !in state.processedDirs {
      var listed := Trace(t.writes, t.calls + [path]);
      if contents(path).Ok? {
        var acc := Lists(state.downloadPaths, state.savePaths);
        MapItemsAligned(contents, rank, rank(path), contents(path).value, acc, listed);
        MapItemsGrows(contents, rank, rank(path), contents(path).value, acc, listed);
        var walked := MapItems(contents, rank, rank(path), contents(path).value, acc, listed);
        var r := MapDir(contents, rank, path, t);
        if walked.result.Ok? {
          assert r.trace.writes == walked.trace.writes + [r.trace.writes[|r.trace.writes| - 1]];
          assert forall k :: |t.writes| <= k < |walked.trace.writes| ==> r.trace.writes[k] == walked.trace.writes[k];
        }
      }
    }
  }

  lemma {:induction false} MapItemsAligned(contents: string -> Listing, rank: string -> nat, bound: nat,
                                           items: seq<Entry>, acc: Lists, t: Trace)
    requires Finite(contents, rank)
    requires forall i :: 0 <= i < |items| && items[i].kind == Dir ==> rank(items[i].path) < bound
    requires Aligned(Loaded(t.writes)) && |acc.downloadPaths| == |acc.savePaths|
    ensures var r := MapItems(contents, rank, bound, items, acc, t);
      && Aligned(Loaded(r.trace.writes))
      && AlignedFrom(r.trace.writes, |t.writes|)
      && (r.result.Ok? ==> |r.result.value.downloadPaths| == |r.result.value.savePaths|)
    decreases bound, 0, |items|
  {
    if items != [] {
      var item := items[0];
      match item.kind
      case File =>
        var grown := Lists(acc.downloadPaths + [item.downloadUrl], acc.savePaths + [item.path]);
        MapItemsAligned(contents, rank, bound, items[1..], grown, t);
      case Other =>
        MapItemsAligned(contents, rank, bound, items[1..], acc, t);
      case Dir =>
        MapDirAligned(contents, rank, item.path, t);
        var sub := MapDir(contents, rank, item.path, t);
        if sub.result.Ok? {
          var lists := sub.result.value;
          var grown := Lists(acc.downloadPaths + lists.downloadPaths, acc.savePaths + lists.savePaths);
          MapItemsAligned(contents, rank, bound, items[1..], grown, sub.trace);
          MapDirGrows(contents, rank, item.path, t);
          MapItemsGrows(contents, rank, bound, items[1..], grown, sub.trace);
          var r := MapItems(contents, rank, bound, items[1..], grown, sub.trace);
          assert forall k :: |t.writes| <= k < |sub.trace.writes| ==> r.trace.writes[k] == sub.trace.writes[k];
        }
    }
  }

  /** The entry's download URL and path stand at index `k` of the two lists. */
  ghost predicate PlacedAt(lists: Lists, k: nat, e: Entry)
  {
    k < |lists.downloadPaths| && k < |lists.savePaths|
    && lists.downloadPaths[k] == e.downloadUrl && lists.savePaths[k] == e.path
  }

  /** The file entries of `items` stand in `lists`, in listing order, at strictly increasing
      indices from `from` on, each with its download URL and its path at the same index. */
  ghost predicate PairsInOrder(lists: Lists, from: nat, items: seq<Entry>)
    decreases |items|
  {
    if items == [] then true
    else if items[0].kind != File then PairsInOrder(lists, from, items[1..])
    else exists k: nat :: from <= k && PlacedAt(lists, k, items[0]) && PairsInOrder(lists, k + 1, items[1..])
  }

  /** Placements from a later index are placements from an earlier one. */
  lemma {:induction false} PairsInOrderFrom(lists: Lists, from: nat, later: nat, items: seq<Entry>)
    requires from <= later && PairsInOrder(lists, later, items)
    ensures PairsInOrder(lists, from, items)
    decreases |items|
  {
    if items != [] && items[0].kind != File {
      PairsInOrderFrom(lists, from, later, items[1..]);
    }
  }

  /** The loop over a listing appends each file entry's download URL and path at the same
      index, after everything already accumulated and in listing order. */
  lemma {:induction false} MapItemsPairsFiles(contents: string -> Listing, rank: string -> nat, bound: nat,
                                              items: seq<Entry>, acc: Lists, t: Trace)
    requires Finite(contents, rank)
    requires forall i :: 0 <= i < |items| && items[i].kind == Dir ==> rank(items[i].path) < bound
    requires Aligned(Loaded(t.writes)) && |acc.downloadPaths| == |acc.savePaths|
    ensures var r := MapItems(contents, rank, bound, items, acc, t);
      r.result.Ok? ==> PairsInOrder(r.result.value, |acc.downloadPaths|, items)
    decreases |items|
  {
    if items != [] {
      var item := items[0];
      var r := MapItems(contents, rank, bound, items, acc, t);
      match item.kind
      case File =>
        var grown := Lists(acc.downloadPaths + [item.downloadUrl], acc.savePaths + [item.path]);
        MapItemsPairsFiles(contents, rank, bound, items[1..], grown, t);
        MapItemsGrows(contents, rank, bound, items[1..], grown, t);
        if r.result.Ok? {
          var k := |acc.downloadPaths|;
          assert r.result.value.downloadPaths[k] == grown.downloadPaths[k];
          assert r.result.value.savePaths[k] == grown.savePaths[k];
          assert PlacedAt(r.result.value, k, item) && PairsInOrder(r.result.value, k + 1, items[1..]);
        }
      case Other =>
        MapItemsPairsFiles(contents, rank, bound, items[1..], acc, t);
      case Dir =>
        var sub := MapDir(contents, rank, item.path, t);
        if sub.result.Ok? {
          var lists := sub.result.value;
          var grown := Lists(acc.downloadPaths + lists.downloadPaths, acc.savePaths + lists.savePaths);
          MapDirAligned(contents, rank, item.path, t);
          MapItemsPairsFiles(contents, rank, bound, items[1..], grown, sub.trace);
          if r.result.Ok? {
            PairsInOrderFrom(r.result.value, |acc.downloadPaths|, |grown.downloadPaths|, items[1..]);
          }
        }
    }
  }

  /** A successful walk of an unprocessed directory places every file entry of its listing,
      download URL and path at the same index, beyond the loaded lists and in listing order;
      the loaded lists stay a prefix of the returned ones. */
  lemma MapDirPairsFiles(contents: string -> Listing, rank: string -> nat, path: string, t: Trace)
    requires Finite(contents, rank)
    requires Aligned(Loaded(t.writes)) && path !in Loaded(t.writes).processedDirs
    ensures var r := MapDir(contents, rank, path, t);
      r.result.Ok? ==>
        && contents(path).Ok?
        && |r.result.value.downloadPaths| == |r.result.value.savePaths|
        && Loaded(t.writes).downloadPaths <= r.result.value.downloadPaths
        && Loaded(t.writes).savePaths <= r.result.value.savePaths
        && PairsInOrder(r.result.value, |Loaded(t.writes).downloadPaths|, contents(path).value)
  {
    var state := Loaded(t.writes);
    MapDirAligned(contents, rank, path, t);
    if contents(path).Ok? {
      var listed := Trace(t.writes, t.calls + [path]);
      MapItemsPairsFiles(contents, rank, rank(path), contents(path).value, Lists(state.downloadPaths, state.savePaths), listed);
    }
  }

  /** Placement in order gives each file entry its own index from `from` on, where its
      download URL and path stand together. */
  lemma {:induction false} PairsInOrderPlaces(lists: Lists, from: nat, items: seq<Entry>, j: nat)
    requires PairsInOrder(lists, from, items)
    requires j < |items| && items[j].kind == File
    ensures exists k: nat :: from <= k && PlacedAt(lists, k, items[j])
    decreases |items|
  {
    if items[0].kind != File {
      PairsInOrderPlaces(lists, from, items[1..], j - 1);
    } else {
      var k: nat :| from <= k && PlacedAt(lists, k, items[0]) && PairsInOrder(lists, k + 1, items[1..]);
      if j > 0 {
        PairsInOrderPlaces(lists, k + 1, items[1..], j - 1);
      }
    }
  }

  /** `url` and `p` are the download URL and the path of one file entry of some
      successful listing. */
  ghost predicate IsFile(contents: string -> Listing, url: string, p: string)
  {
    exists q, i :: contents(q).Ok? && 0 <= i < |contents(q).value| && contents(q).value[i] == Entry(File, p, url)
  }

  /** The two lists are index-aligned: they have one length, and at every index the
      download URL and the save path are those of one and the same listed file. */
  ghost predicate Genuine(contents: string -> Listing, lists: Lists)
  {
    && |lists.downloadPaths| == |lists.savePaths|
    && forall k :: 0 <= k < |lists.downloadPaths| ==> IsFile(contents, lists.downloadPaths[k], lists.savePaths[k])
  }

  /** The lists of a checkpoint are index-aligned. */
  ghost predicate GenuineState(contents: string -> Listing, state: MapState)
  {
    Genuine(contents, Lists(state.downloadPaths, state.savePaths))
  }

  /** Every checkpoint written after the first `from` writes is index-aligned. */
  ghost predicate GenuineFrom(contents: string -> Listing, writes: seq<MapState>, from: nat)
  {
    forall k :: from <= k < |writes| ==> GenuineState(contents, writes[k])
  }

  /** Appending index-aligned lists to index-aligned lists keeps them index-aligned. */
  lemma GenuineConcat(contents: string -> Listing, a: Lists, b: Lists)
    requires Genuine(contents, a) && Genuine(contents, b)
    ensures Genuine(contents, Lists(a.downloadPaths + b.downloadPaths, a.savePaths + b.savePaths))
  {
    var c := Lists(a.downloadPaths + b.downloadPaths, a.savePaths + b.savePaths);
    forall k | 0 <= k < |c.downloadPaths|
      ensures IsFile(contents, c.downloadPaths[k], c.savePaths[k])
    {
      if k >= |a.downloadPaths| {
        var m := k - |a.downloadPaths|;
        assert c.downloadPaths[k] == b.downloadPaths[m] && c.savePaths[k] == b.savePaths[m];
      } else {
        assert c.downloadPaths[k] == a.downloadPaths[k] && c.savePaths[k] == a.savePaths[k];
      }
    }
  }

  /** Index alignment is preserved: if at every index the loaded checkpoint pairs the
      download URL and the path of one listed file, then so does every checkpoint the walk
      writes, the checkpoint it leaves, and the lists it returns. */
  lemma {:induction false} MapDirGenuine(contents: string -> Listing, rank: string -> nat, path: string, t: Trace)
    requires Finite(contents, rank)
    requires GenuineState(contents, Loaded(t.writes))
    ensures var r := MapDir(contents, rank, path, t);
      && GenuineState(contents, Loaded(r.trace.writes))
      && GenuineFrom(contents, r.trace.writes, |t.writes|)
      && (r.result.Ok? ==> Genuine(contents, r.result.value))
    decreases rank(path), 1
  {
    var state := Loaded(t.writes);
    if path !in state.processedDirs && contents(path).Ok? {
      var listed := Trace(t.writes, t.calls + [path]);
      var acc := Lists(state.downloadPaths, state.savePaths);
      assert contents(path).value[0..] == contents(path).value;
      MapItemsGenuine(contents, rank, path, 0, acc, listed);
      var walked := MapItems(contents, rank, rank(path), contents(path).value, acc, listed);
      if walked.result.Ok? {
        var r := MapDir(contents, rank, path, t);
        assert r.trace.writes == walked.trace.writes + [r.trace.writes[|r.trace.writes| - 1]];
        assert forall k :: |t.writes| <= k < |walked.trace.writes| ==> r.trace.writes[k] == walked.trace.writes[k];
      }
    }
  }

  /** The loop over the listing of `dir` from entry `j` on keeps the lists and every
      checkpoint it writes index-aligned. */
  lemma {:induction false} MapItemsGenuine(contents: string -> Listing, rank: string -> nat, dir: string, j: nat,
                                           acc: Lists, t: Trace)
    requires Finite(contents, rank)
    requires contents(dir).Ok? && j <= |contents(dir).value|
    requires GenuineState(contents, Loaded(t.writes)) && Genuine(contents, acc)
    ensures var items := contents(dir).value[j..];
      var r := MapItems(contents, rank, rank(dir), items, acc, t);
      && GenuineState(contents, Loaded(r.trace.writes))
      && GenuineFrom(contents, r.trace.writes, |t.writes|)
      && (r.result.Ok? ==> Genuine(contents, r.result.value))
    decreases rank(dir), 0, |contents(dir).value| - j
  {
    var items := contents(dir).value[j..];
    if j < |contents(dir).value| {
      var item := contents(dir).value[j];
      assert items[0] == item && items[1..] == contents(dir).value[j + 1..];
      match item.kind
      case File =>
        var grown := Lists(acc.downloadPaths + [item.downloadUrl], acc.savePaths + [item.path]);
        assert contents(dir).value[j] == Entry(File, item.path, item.downloadUrl);
        assert IsFile(contents, item.downloadUrl, item.path);
        GenuineConcat(contents, acc, Lists([item.downloadUrl], [item.path]));
        MapItemsGenuine(contents, rank, dir, j + 1, grown, t);
      case Other =>
        MapItemsGenuine(contents, rank, dir, j + 1, acc, t);
      case Dir =>
        MapDirGenuine(contents, rank, item.path, t);
        var sub := MapDir(contents, rank, item.path, t);
        if sub.result.Ok? {
          var lists := sub.result.value;
          var grown := Lists(acc.downloadPaths + lists.downloadPaths, acc.savePaths + lists.savePaths);
          GenuineConcat(contents, acc, lists);
          MapItemsGenuine(contents, rank, dir, j + 1, grown, sub.trace);
          MapItemsGrows(contents, rank, rank(dir), items[1..], grown, sub.trace);
          var r := MapItems(contents, rank, rank(dir), items[1..], grown, sub.trace);
          assert forall k :: |t.writes| <= k < |sub.trace.writes| ==> r.trace.writes[k] == sub.trace.writes[k];
        }
    }
  }

  /** Mapper skip: a directory the loaded checkpoint records as processed is not listed, the
      checkpoint is not written, and the loaded lists come back unchanged. */
  lemma SkipProcessed(contents: string -> Listing, rank: string -> nat, path: string, t: Trace)
    requires Finite(contents, rank)
    requires path in Loaded(t.writes).processedDirs
    ensures MapDir(contents, rank, path, t)
         == Run(Ok(Lists(Loaded(t.writes).downloadPaths, Loaded(t.writes).savePaths)), t)
  {
  }

  /** The download URLs of the file entries of `items`, in listing order. */
  function FileUrls(items: seq<Entry>): seq<string>
  {
    if items == [] then [] else (if items[0].kind == File then [items[0].downloadUrl] else []) + FileUrls(items[1..])
  }

  /** The paths of the file entries of `items`, in listing order. */
  function FilePaths(items: seq<Entry>): seq<string>
  {
    if items == [] then [] else (if items[0].kind == File then [items[0].path] else []) + FilePaths(items[1..])
  }

  lemma {:induction false} MapItemsLeaf(contents: string -> Listing, rank: string -> nat, bound: nat,
                                        items: seq<Entry>, acc: Lists, t: Trace)
    requires Finite(contents, rank)
    requires forall i :: 0 <= i < |items| ==> items[i].kind != Dir
    ensures MapItems(contents, rank, bound, items, acc, t)
         == Run(Ok(Lists(acc.downloadPaths + FileUrls(items), acc.savePaths + FilePaths(items))), t)
    decreases |items|
  {
    if items == [] {
      assert acc.downloadPaths + [] == acc.downloadPaths && acc.savePaths + [] == acc.savePaths;
    } else {
      var item := items[0];
      if item.kind == File {
        var grown := Lists(acc.downloadPaths + [item.downloadUrl], acc.savePaths + [item.path]);
        MapItemsLeaf(contents, rank, bound, items[1..], grown, t);
        assert grown.downloadPaths + FileUrls(items[1..]) == acc.downloadPaths + FileUrls(items);
        assert grown.savePaths + FilePaths(items[1..]) == acc.savePaths + FilePaths(items);
      } else {
        MapItemsLeaf(contents, rank, bound, items[1..], acc, t);
        assert FileUrls(items) == FileUrls(items[1..]) && FilePaths(items) == FilePaths(items[1..]);
      }
    }
  }

  /** A directory with no subdirectories: its file entries are appended to the loaded lists
      in listing order, download URL and path at the same index, after one listing call and
      one checkpoint write. */
  lemma LeafDirectory(contents: string -> Listing, rank: string -> nat, path: string, t: Trace)
    requires Finite(contents, rank)
    requires path !in Loaded(t.writes).processedDirs && contents(path).Ok?
    requires forall i :: 0 <= i < |contents(path).value| ==> contents(path).value[i].kind != Dir
    ensures var before := Loaded(t.writes);
      var items := contents(path).value;
      var lists := Lists(before.downloadPaths + FileUrls(items), before.savePaths + FilePaths(items));
      MapDir(contents, rank, path, t)
        == Run(Ok(lists), Trace(t.writes + [MapState(lists.downloadPaths, lists.savePaths, before.processedDirs + [path])],
                                t.calls + [path]))
  {
    var state := Loaded(t.writes);
    MapItemsLeaf(contents, rank, rank(path), contents(path).value, Lists(state.downloadPaths, state.savePaths),
                 Trace(t.writes, t.calls + [path]));
  }
}
