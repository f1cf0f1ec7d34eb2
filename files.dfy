/**
 * The part of the operating system's file system the handler relies on:
 * opening a path, reading an open file to its end, closing it. The file
 * system's contents are a map from path to entry, fixed for one request.
 */
module Files {
  import opened Utf8

  /** What a path names: a regular file, a directory, or something the process may not open. */
  datatype Entry = Regular(content: seq<byte>) | Directory | Denied

  datatype ReadOutcome = ReadOk(data: seq<byte>) | ReadFailed(cause: string)

  /** Whether os.Open of path succeeds: the path exists and may be opened (a directory may). */
  predicate Openable(entries: map<string, Entry>, path: string)
  {
    path in entries && !entries[path].Denied?
  }

  /** Why os.Open of path fails. */
  function OpenFailure(entries: map<string, Entry>, path: string): string
  {
    if path !in entries then "no such file or directory" else "permission denied"
  }

  /** What reading an opened entry to its end gives: a regular file's bytes; a directory cannot be read. */
  function ReadOf(e: Entry): (r: ReadOutcome)
    ensures r.ReadOk? <==> e.Regular?
    ensures e.Regular? ==> r.data == e.content
  {
    match e
    case Regular(content) => ReadOk(content)
    case Directory => ReadFailed("is a directory")
    case Denied => ReadFailed("permission denied")
  }

  class FileSystem {
    const entries: map<string, Entry>
    /** The files opened and not yet closed. */
    var openFiles: set<File>
    /** Every path an open was attempted on, in order. */
    ghost var attempts: seq<string>

    constructor(entries: map<string, Entry>)
      ensures this.entries == entries && openFiles == {} && attempts == []
    {
      this.entries := entries;
      openFiles := {};
      attempts := [];
    }

    /** os.Open: a new open file, or the reason it cannot be opened. */
    method Open(path: string) returns (f: File?, cause: string)
      modifies this
      ensures attempts == old(attempts) + [path]
      ensures Openable(entries, path) ==>
        && f != null && fresh(f) && f.fs == this && f.entry == entries[path] && !f.closed
        && openFiles == old(openFiles) + {f}
      ensures !Openable(entries, path) ==>
        f == null && cause == OpenFailure(entries, path) && openFiles == old(openFiles)
    {
      attempts := attempts + [path];
      if Openable(entries, path) {
        f := new File(this, entries[path]);
        openFiles := openFiles + {f};
        cause := "";
      } else {
        f := null;
        cause := OpenFailure(entries, path);
      }
    }
  }

  class File {
    const fs: FileSystem
    const entry: Entry
    var closed: bool

    constructor(fs: FileSystem, entry: Entry)
      ensures this.fs == fs && this.entry == entry && !closed
    {
      this.fs := fs;
      this.entry := entry;
      closed := false;
    }

    /** ioutil.ReadAll on the file. */
    method ReadAll() returns (r: ReadOutcome)
      requires !closed
      ensures r == ReadOf(entry)
    {
      r := ReadOf(entry);
    }

    method Close()
      requires !closed
      modifies this, fs
      ensures closed
      ensures fs.openFiles == old(fs.openFiles) - {this}
      ensures fs.attempts == old(fs.attempts)
    {
      closed := true;
      fs.openFiles := fs.openFiles - {this};
    }
  }
}
