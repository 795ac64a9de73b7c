/** download_file: one unranged GET for a small file, otherwise a loop of ranged GETs
    of at most CHUNK_SIZE bytes each, appended to the local file. */
module RangeDownload {
  import opened Wrappers
  import opened Http
  import opened LocalDisk

  /** The threshold below which a file is fetched whole, and the size of each chunk. */
  const CHUNK_SIZE: nat := 100 * 1024

  /** The inclusive byte range [first, last] of one ranged GET. */
  datatype ByteRange = ByteRange(first: nat, last: nat)

  function Min(a: int, b: int): int { if a <= b then a else b }

  /** The ranges the chunk loop requests when it starts at `start` for a file of `size`
      bytes: each ends at start + CHUNK_SIZE - 1 or at the last byte, and the next one
      starts right after it. */
  function Plan(start: nat, size: nat): seq<ByteRange>
    decreases size - start
  {
    if start >= size then []
    else
      var last := Min(start + CHUNK_SIZE - 1, size - 1);
      [ByteRange(start, last)] + Plan(last + 1, size)
  }

  /** The ranged GETs for `plan`, in order. */
  function Requests(url: string, plan: seq<ByteRange>): (reqs: seq<Request>)
  {
    seq(|plan|, i requires 0 <= i < |plan| => Ranged(url, plan[i].first, plan[i].last))
  }

  /** The offsets first, first + 1, ..., last - 1. */
  function Interval(first: nat, last: nat): (s: seq<nat>)
  {
    seq(if first <= last then last - first else 0, k => first + k)
  }

  /** The byte offsets that the ranges of `plan` name, range after range. */
  function Offsets(plan: seq<ByteRange>): seq<nat>
  {
    if plan == [] then [] else Interval(plan[0].first, plan[0].last + 1) + Offsets(plan[1..])
  }

  /** Every range is non-empty, holds at most CHUNK_SIZE bytes and ends at or before the
      last byte; all but the last hold exactly CHUNK_SIZE bytes; the first starts at
      `start`, each later one right after its predecessor, and the last ends at size - 1.
      There are ranges exactly when start < size. */
  lemma {:induction false} PlanShape(start: nat, size: nat)
    ensures var p := Plan(start, size);
      && (p == [] <==> start >= size)
      && (forall i :: 0 <= i < |p| ==>
            start <= p[i].first <= p[i].last < size && p[i].last - p[i].first < CHUNK_SIZE)
      && (forall i :: 0 <= i < |p| - 1 ==> p[i].last - p[i].first == CHUNK_SIZE - 1)
      && (forall i :: 0 <= i < |p| - 1 ==> p[i + 1].first == p[i].last + 1)
      && (p != [] ==> p[0].first == start && p[|p| - 1].last == size - 1)
    decreases size - start
  {
    if start < size {
      var last := Min(start + CHUNK_SIZE - 1, size - 1);
      PlanShape(last + 1, size);
      var p, q := Plan(start, size), Plan(last + 1, size);
      assert p == [ByteRange(start, last)] + q;
      assert forall i :: 1 <= i < |p| ==> p[i] == q[i - 1];
      if q != [] {
        assert last == start + CHUNK_SIZE - 1;
      }
    }
  }

  lemma IntervalSplit(a: nat, b: nat, c: nat)
    requires a <= b <= c
    ensures Interval(a, b) + Interval(b, c) == Interval(a, c)
  {
    var l, r := Interval(a, b), Interval(b, c);
    assert forall k :: 0 <= k < |l| + |r| ==> (l + r)[k] == a + k by {
      forall k | 0 <= k < |l| + |r| ensures (l + r)[k] == a + k {
        if k >= |l| { assert (l + r)[k] == r[k - |l|]; }
      }
    }
  }

  /** Coverage: the ranges name every offset from `start` to size - 1 exactly once and in
      increasing order. */
  lemma {:induction false} PlanCovers(start: nat, size: nat)
    ensures Offsets(Plan(start, size)) == Interval(start, size)
    decreases size - start
  {
    if start < size {
      var last := Min(start + CHUNK_SIZE - 1, size - 1);
      var p := Plan(start, size);
      assert p[0] == ByteRange(start, last) && p[1..] == Plan(last + 1, size);
      PlanCovers(last + 1, size);
      IntervalSplit(start, last + 1, size);
    }
  }

  /** Request count: ceil((size - start) / CHUNK_SIZE) ranges, none when start >= size. */
  lemma {:induction false} PlanCount(start: nat, size: nat)
    ensures |Plan(start, size)| == if start < size then (size - start + CHUNK_SIZE - 1) / CHUNK_SIZE else 0
    decreases size - start
  {
    if start < size {
      var last := Min(start + CHUNK_SIZE - 1, size - 1);
      PlanCount(last + 1, size);
      var n := size - start;
      if n > CHUNK_SIZE {
        assert (n - 1) / CHUNK_SIZE + 1 == (n + CHUNK_SIZE - 1) / CHUNK_SIZE;
      }
    }
  }

  /** A resumed 500000-byte file from offset 250000 takes three ranged GETs. */
  lemma ResumeScenario()
    ensures Plan(250000, 500000)
         == [ByteRange(250000, 352399), ByteRange(352400, 454799), ByteRange(454800, 499999)]
  {
    assert Plan(454800, 500000) == [ByteRange(454800, 499999)] + Plan(500000, 500000);
    assert Plan(352400, 500000) == [ByteRange(352400, 454799)] + Plan(454800, 500000);
  }

  /** The course of the chunk loop over `plan`: the GETs it sent, the bodies it appended, how
      many GETs succeeded, and whether it got through the whole plan. */
  datatype Transfer = Transfer(issued: seq<Request>, appended: seq<Byte>, received: nat, complete: bool)

  /** The chunk loop against the server `get`: it sends the ranges in order, appends each
      body, and stops at the first error, which download_file catches and logs. */
  function RunPlan(get: Request -> Response, url: string, plan: seq<ByteRange>): Transfer
    decreases |plan|
  {
    if plan == [] then Transfer([], [], 0, true)
    else
      var request := Ranged(url, plan[0].first, plan[0].last);
      match get(request)
      case Err(_) => Transfer([request], [], 0, false)
      case Ok(body) =>
        var rest := RunPlan(get, url, plan[1..]);
        Transfer([request] + rest.issued, body + rest.appended, rest.received + 1, rest.complete)
  }

  /** What download_file leaves behind: the GETs it sent and the local files afterwards. */
  datatype Outcome = Outcome(issued: seq<Request>, files: map<string, seq<Byte>>)

  /** download_file(url, local_path, file_size, start_byte). */
  function Download(get: Request -> Response, url: string, files: map<string, seq<Byte>>,
                    localPath: string, fileSize: nat, startByte: nat): Outcome
  {
    if fileSize < CHUNK_SIZE then
      match get(Whole(url))
      case Ok(body) => Outcome([Whole(url)], files[localPath := body])
      case Err(_) => Outcome([Whole(url)], files)
    else
      var t := RunPlan(get, url, Plan(startByte, fileSize));
      Outcome(t.issued, AfterAppends(files, localPath, t.appended, t.received))
  }

  function Then(issued: seq<Request>, appended: seq<Byte>, received: nat, t: Transfer): Transfer
  {
    Transfer(issued + t.issued, appended + t.appended, received + t.received, t.complete)
  }

  lemma ThenNothing(t: Transfer)
    ensures Then([], [], 0, t) == t
  {
    assert [] + t.issued == t.issued && [] + t.appended == t.appended;
  }

  /** One turn of the chunk loop, with the range it requests. */
  lemma RunPlanStep(get: Request -> Response, url: string, start: nat, size: nat,
                    issued: seq<Request>, appended: seq<Byte>, received: nat)
    requires start < size
    ensures var last := Min(start + CHUNK_SIZE - 1, size - 1);
      var request := Ranged(url, start, last);
      var now := Then(issued, appended, received, RunPlan(get, url, Plan(start, size)));
      && (get(request).Err? ==> now == Then(issued + [request], appended, received, Transfer([], [], 0, false)))
      && (get(request).Ok? ==>
            now == Then(issued + [request], appended + get(request).value, received + 1,
                        RunPlan(get, url, Plan(last + 1, size))))
  {
    var last := Min(start + CHUNK_SIZE - 1, size - 1);
    var p := Plan(start, size);
    assert p[0] == ByteRange(start, last) && p[1..] == Plan(last + 1, size);
  }

  function AfterAppends(files: map<string, seq<Byte>>, localPath: string, appended: seq<Byte>, received: nat): map<string, seq<Byte>>
  {
    if received == 0 then files else files[localPath := Contents(files, localPath) + appended]
  }

  lemma AppendStep(files: map<string, seq<Byte>>, localPath: string, appended: seq<Byte>, received: nat, body: seq<Byte>)
    requires received == 0 ==> appended == []
    ensures var now := AfterAppends(files, localPath, appended, received);
      now[localPath := Contents(now, localPath) + body] == AfterAppends(files, localPath, appended + body, received + 1)
  {
    var now := AfterAppends(files, localPath, appended, received);
    if received == 0 {
      assert appended + body == body;
    } else {
      assert Contents(now, localPath) == Contents(files, localPath) + appended;
      assert Contents(files, localPath) + appended + body == Contents(files, localPath) + (appended + body);
    }
  }

  /** download_file on the disk: the small-file GET or the chunk loop, with the requests it
      sent returned as a log. */
  method DownloadFile(disk: Disk, get: Request -> Response, url: string, localPath: string,
                      fileSize: nat, startByte: nat)
    returns (issued: seq<Request>)
    modifies disk
    ensures Outcome(issued, disk.files) == Download(get, url, old(disk.files), localPath, fileSize, startByte)
  {
    if fileSize < CHUNK_SIZE {
      issued := [Whole(url)];
      var response := get(Whole(url));
      if response.Ok? {
        disk.Overwrite(localPath, response.value);
      }
      return;
    }
    issued := [];
    ghost var appended: seq<Byte> := [];
    ghost var received: nat := 0;
    var start := startByte;
    ThenNothing(RunPlan(get, url, Plan(startByte, fileSize)));
    while start < fileSize
      invariant RunPlan(get, url, Plan(startByte, fileSize))
             == Then(issued, appended, received, RunPlan(get, url, Plan(start, fileSize)))
      invariant received == 0 ==> appended == []
      invariant disk.files == AfterAppends(old(disk.files), localPath, appended, received)
      decreases fileSize - start
    {
      var end := Min(start + CHUNK_SIZE - 1, fileSize - 1);
      var request := Ranged(url, start, end);
      RunPlanStep(get, url, start, fileSize, issued, appended, received);
      issued := issued + [request];
      var response := get(request);
      if response.Err? {
        assert issued + [] == issued && appended + [] == appended;
        return;
      }
      disk.Append(localPath, response.value);
      AppendStep(old(disk.files), localPath, appended, received, response.value);
      appended, received := appended + response.value, received + 1;
      start := end + 1;
    }
    assert Plan(start, fileSize) == [];
    assert issued + [] == issued && appended + [] == appended;
  }

  /** The bodies of the successful GETs among `reqs`, in order; a failed GET contributes nothing. */
  function Bodies(get: Request -> Response, reqs: seq<Request>): seq<Byte>
  {
    if reqs == [] then []
    else (match get(reqs[0]) case Ok(body) => body case Err(_) => []) + Bodies(get, reqs[1..])
  }

  /** The chunk loop sends the planned GETs in plan order and stops right after the first
      one that fails: every GET before the last one it sent succeeded, and the last one
      failed exactly when the loop did not get through the plan. */
  lemma {:induction false} RunPlanIssued(get: Request -> Response, url: string, plan: seq<ByteRange>)
    ensures var t := RunPlan(get, url, plan);
      && t.received <= |t.issued| <= |plan|
      && t.issued == Requests(url, plan)[..|t.issued|]
      && (forall i :: 0 <= i < t.received ==> get(t.issued[i]).Ok?)
      && (t.complete ==> t.received == |t.issued| == |plan|)
      && (!t.complete ==> t.received == |t.issued| - 1 && get(t.issued[t.received]).Err?)
    decreases |plan|
  {
    if plan != [] {
      var reqs := Requests(url, plan);
      var request := Ranged(url, plan[0].first, plan[0].last);
      assert reqs[0] == request;
      var t := RunPlan(get, url, plan);
      match get(request)
      case Err(_) =>
        assert t.issued == [request];
      case Ok(body) =>
        RunPlanIssued(get, url, plan[1..]);
        var rest := RunPlan(get, url, plan[1..]);
        var tail := Requests(url, plan[1..]);
        assert forall i :: 0 <= i < |tail| ==> tail[i] == reqs[i + 1];
        assert t.issued == [request] + rest.issued;
        assert t.issued == reqs[..|t.issued|];
        assert forall i :: 0 < i < |t.issued| ==> t.issued[i] == rest.issued[i - 1];
    }
  }

  /** The chunk loop gets through the whole plan exactly when none of the planned GETs fails. */
  lemma {:induction false} RunPlanComplete(get: Request -> Response, url: string, plan: seq<ByteRange>)
    ensures RunPlan(get, url, plan).complete
        <==> forall i :: 0 <= i < |plan| ==> get(Requests(url, plan)[i]).Ok?
    decreases |plan|
  {
    if plan != [] {
      var reqs := Requests(url, plan);
      var request := Ranged(url, plan[0].first, plan[0].last);
      assert reqs[0] == request;
      if get(request).Ok? {
        RunPlanComplete(get, url, plan[1..]);
        var tail := Requests(url, plan[1..]);
        assert forall i :: 0 <= i < |tail| ==> tail[i] == reqs[i + 1];
        assert (forall i :: 0 <= i < |plan| ==> get(reqs[i]).Ok?)
           <==> (forall i :: 0 <= i < |tail| ==> get(tail[i]).Ok?) by {
          if forall i :: 0 <= i < |tail| ==> get(tail[i]).Ok? {
            forall i | 0 <= i < |plan| ensures get(reqs[i]).Ok? {
              if i > 0 { assert reqs[i] == tail[i - 1]; }
            }
          }
        }
      }
    }
  }

  /** What the chunk loop appends is the bodies of the GETs it sent, in order. */
  lemma {:induction false} RunPlanBodies(get: Request -> Response, url: string, plan: seq<ByteRange>)
    ensures var t := RunPlan(get, url, plan);
      t.appended == Bodies(get, t.issued)
    decreases |plan|
  {
    if plan != [] {
      var request := Ranged(url, plan[0].first, plan[0].last);
      var t := RunPlan(get, url, plan);
      match get(request)
      case Err(_) =>
        assert t.issued == [request];
        assert Bodies(get, [request]) == [] + Bodies(get, []);
      case Ok(body) =>
        RunPlanBodies(get, url, plan[1..]);
        var rest := RunPlan(get, url, plan[1..]);
        assert t.issued == [request] + rest.issued;
        assert ([request] + rest.issued)[1..] == rest.issued;
    }
  }

  /** The three facts above together. */
  lemma RunPlanLog(get: Request -> Response, url: string, plan: seq<ByteRange>)
    ensures var t := RunPlan(get, url, plan);
      && t.received <= |t.issued| <= |plan|
      && t.issued == Requests(url, plan)[..|t.issued|]
      && (forall i :: 0 <= i < t.received ==> get(t.issued[i]).Ok?)
      && (t.complete <==> forall i :: 0 <= i < |plan| ==> get(Requests(url, plan)[i]).Ok?)
      && (t.complete ==> t.received == |t.issued| == |plan|)
      && (!t.complete ==> t.received == |t.issued| - 1 && get(t.issued[t.received]).Err?)
      && t.appended == Bodies(get, t.issued)
  {
    RunPlanIssued(get, url, plan);
    RunPlanComplete(get, url, plan);
    RunPlanBodies(get, url, plan);
  }

  /** Chunked branch: the GETs sent are the planned ranges in order, cut short by the first
      failure; the local file is only appended to, ending as its old content followed by
      the successful bodies in order, and it is left as it was when the first GET fails; no
      other file changes. */
  lemma ChunkedBranch(get: Request -> Response, url: string, files: map<string, seq<Byte>>,
                      localPath: string, fileSize: nat, startByte: nat)
    requires fileSize >= CHUNK_SIZE
    ensures var out := Download(get, url, files, localPath, fileSize, startByte);
      var reqs := Requests(url, Plan(startByte, fileSize));
      && |out.issued| <= |reqs|
      && out.issued == reqs[..|out.issued|]
      && ((forall i :: 0 <= i < |reqs| ==> get(reqs[i]).Ok?) ==> out.issued == reqs)
      && (out.issued != [] && get(out.issued[0]).Ok? ==>
            localPath in out.files && out.files[localPath] == Contents(files, localPath) + Bodies(get, out.issued))
      && (forall p :: p in out.files && p != localPath ==> p in files && out.files[p] == files[p])
      && (forall p :: p in files ==> p in out.files)
      && (out.issued == [] || get(out.issued[0]).Err? ==> out.files == files)
  {
    var plan := Plan(startByte, fileSize);
    RunPlanLog(get, url, plan);
  }

  /** No-op resume: a large file whose recorded offset has reached its size sends nothing
      and leaves every file as it was. */
  lemma NoOpResume(get: Request -> Response, url: string, files: map<string, seq<Byte>>,
                   localPath: string, fileSize: nat, startByte: nat)
    requires fileSize >= CHUNK_SIZE && startByte >= fileSize
    ensures Download(get, url, files, localPath, fileSize, startByte) == Outcome([], files)
  {
  }

  /** Small-file branch: exactly one unranged GET, whatever the start offset; on success the
      local file is overwritten from byte 0 with the body, on failure nothing changes. */
  lemma SmallFileBranch(get: Request -> Response, url: string, files: map<string, seq<Byte>>,
                        localPath: string, fileSize: nat, startByte: nat, otherStart: nat)
    requires fileSize < CHUNK_SIZE
    ensures var out := Download(get, url, files, localPath, fileSize, startByte);
      && out == Download(get, url, files, localPath, fileSize, otherStart)
      && out.issued == [Whole(url)]
      && out.files == match get(Whole(url)) case Ok(body) => files[localPath := body] case Err(_) => files
  {
  }

  /** A server that holds `content` at `url` and honours every range inside it. */
  ghost predicate Serves(get: Request -> Response, url: string, content: seq<Byte>)
  {
    && get(Whole(url)) == Ok(content)
    && forall first: nat, last: nat :: first <= last < |content| ==>
         get(Ranged(url, first, last)) == Ok(content[first..last + 1])
  }

  lemma {:induction false} ServedPlan(get: Request -> Response, url: string, content: seq<Byte>, start: nat)
    requires Serves(get, url, content) && start <= |content|
    ensures RunPlan(get, url, Plan(start, |content|))
         == Transfer(Requests(url, Plan(start, |content|)), content[start..], |Plan(start, |content|)|, true)
    decreases |content| - start
  {
    var size := |content|;
    if start < size {
      var last := Min(start + CHUNK_SIZE - 1, size - 1);
      var plan := Plan(start, size);
      assert plan[0] == ByteRange(start, last) && plan[1..] == Plan(last + 1, size);
      ServedPlan(get, url, content, last + 1);
      var reqs, tail := Requests(url, plan), Requests(url, plan[1..]);
      assert reqs == [reqs[0]] + tail;
      assert content[start..] == content[start..last + 1] + content[last + 1..];
    } else {
      assert content[start..] == [];
    }
  }

  /** Resume: against a server that serves `content` of the size HEAD reported, a download
      resumed at `startByte` over a local file holding the first `startByte` bytes (or any
      download of a small file) leaves exactly `content` in the local file, and a large one
      sends exactly the planned ranges. */
  lemma ResumeCompletes(get: Request -> Response, url: string, content: seq<Byte>,
                        files: map<string, seq<Byte>>, localPath: string, startByte: nat)
    requires Serves(get, url, content)
    requires |content| >= CHUNK_SIZE ==> startByte <= |content| && Contents(files, localPath) == content[..startByte]
    ensures var out := Download(get, url, files, localPath, |content|, startByte);
      && out.files == files[localPath := content]
      && out.issued == if |content| < CHUNK_SIZE then [Whole(url)] else Requests(url, Plan(startByte, |content|))
  {
    if |content| >= CHUNK_SIZE {
      ServedPlan(get, url, content, startByte);
      assert content[..startByte] + content[startByte..] == content;
      if startByte == |content| {
        assert content[..startByte] == content;
        assert localPath in files && files[localPath] == content;
        assert Plan(startByte, |content|) == [];
        assert files[localPath := content] == files;
      }
    }
  }
}
