/** The local file system as far as the downloader uses it: whole files keyed by path. */
module LocalDisk {
  import opened Http

  /** A mutable set of files. A path that is not a key has no file. */
  class Disk {
    var files: map<string, seq<Byte>>

    constructor (initial: map<string, seq<Byte>>)
      ensures files == initial
    {
      files := initial;
    }

    /** Opening a file in mode 'wb' and writing `body`: the file is created or truncated. */
    method Overwrite(path: string, body: seq<Byte>)
      modifies this
      ensures files == old(files)[path := body]
    {
      files := files[path := body];
    }

    /** Opening a file in mode 'ab' and writing `body`: the file is created if absent
        and `body` goes after whatever it held. */
    method Append(path: string, body: seq<Byte>)
      modifies this
      ensures files == old(files)[path := Contents(old(files), path) + body]
    {
      files := files[path := Contents(files, path) + body];
    }
  }

  /** What a read of `path` yields; a missing file reads as empty, as appending to it does. */
  function Contents(files: map<string, seq<Byte>>, path: string): seq<Byte>
  {
    if path in files then files[path] else []
  }
}
