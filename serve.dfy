/**
 * The per-request pipeline of main.go (serve.handler): join the requested
 * name onto the storage root, refuse a name that resolves to the root
 * itself, open the file, stream it, and close it on every exit.
 */
module Serve {
  import opened Wrappers
  import opened Paths
  import opened Errors
  import opened Response
  import opened Files
  import opened Handlers

  /** The storage root, filepath.Join(HOME, ".clip/source"). */
  function StorageRoot(home: string): (r: string)
    ensures r != "" && r != "/" && Clean(r) == r
  {
    assert ".clip/source" == ".clip" + "/" + "source";
    assert IsElement(".clip") && IsElement("source");
    JoinParent(home, ".clip", "source");
    Join(home, ".clip/source")
  }

  /**
   * The calls serve.handler makes on the response for one requested name.
   * Whatever happens, the client sees status 200 or no response at all.
   */
  function ServeCalls(root: string, name: string, entries: map<string, Entry>): (r: seq<Call>)
    ensures r == [] || Status(r) == Some(200)
  {
    var filename := Join(root, name);
    if filename == root then
      ErrorEnvelope(Some(ErrFilePathInvalid));
      ErrorCalls(Some(ErrFilePathInvalid))
    else if !Openable(entries, filename) then
      ErrorEnvelope(Some(ErrServerInternalError));
      ErrorCalls(Some(ErrServerInternalError))
    else
      WritefileEffect(ReadOf(entries[filename]));
      WritefileCalls(ReadOf(entries[filename]))
  }

  /** The paths serve.handler tries to open: none for a refused name. */
  function OpenAttempts(root: string, name: string): seq<string>
  {
    if Join(root, name) == root then [] else [Join(root, name)]
  }

  /**
   * serve.handler for the route variable name. The response receives
   * exactly ServeCalls, the refused name opens nothing, and every file
   * opened is closed again.
   */
  method HandleRequest(w: ResponseWriter, fs: FileSystem, root: string, name: string)
    modifies w, fs
    ensures w.calls == old(w.calls) + ServeCalls(root, name, fs.entries)
    ensures fs.attempts == old(fs.attempts) + OpenAttempts(root, name)
    ensures fs.openFiles == old(fs.openFiles)
  {
    var hdr := new Handler(w);
    var filename := Join(root, name);
    if filename == root {
      hdr.Error(Some(ErrFilePathInvalid));
      return;
    }
    var fd, cause := fs.Open(filename);
    if fd == null {
      hdr.Error(Some(ErrServerInternalError));
      return;
    }
    var err := hdr.Writefile(fd);
    // The deferred Close runs whether or not streaming failed.
    fd.Close();
  }

  // ---------------------------------------------------------------------------
  // The four outcomes

  /** A name that resolves to the root gets the code-1 envelope (status 200, no explicit status). */
  lemma {:induction false} RefusedName(root: string, name: string, entries: map<string, Entry>)
    requires Join(root, name) == root
    ensures OpenAttempts(root, name) == []
    ensures !SetsStatus(ServeCalls(root, name, entries))
    ensures ReadEnvelope(Body(ServeCalls(root, name, entries))) == Some(ErrFilePathInvalid)
  {
    ErrorEnvelope(Some(ErrFilePathInvalid));
  }

  /** A file that cannot be opened gets the code-3 envelope. */
  lemma {:induction false} OpenFails(root: string, name: string, entries: map<string, Entry>)
    requires Join(root, name) != root && !Openable(entries, Join(root, name))
    ensures OpenAttempts(root, name) == [Join(root, name)]
    ensures !SetsStatus(ServeCalls(root, name, entries))
    ensures ReadEnvelope(Body(ServeCalls(root, name, entries))) == Some(ErrServerInternalError)
  {
    ErrorEnvelope(Some(ErrServerInternalError));
  }

  /** A file that opens but cannot be read leaves the response untouched: no status, no body. */
  lemma StreamFails(root: string, name: string, entries: map<string, Entry>)
    requires Join(root, name) != root && Openable(entries, Join(root, name))
    requires !entries[Join(root, name)].Regular?
    ensures ServeCalls(root, name, entries) == []
  {
    WritefileEffect(ReadOf(entries[Join(root, name)]));
  }

  /** A regular file is served with status 200 and exactly its content as the body. */
  lemma {:induction false} Served(root: string, name: string, entries: map<string, Entry>)
    requires Join(root, name) != root && Join(root, name) in entries
    requires entries[Join(root, name)].Regular?
    ensures Status(ServeCalls(root, name, entries)) == Some(200)
    ensures Body(ServeCalls(root, name, entries)) == entries[Join(root, name)].content
  {
    WritefileEffect(ReadOf(entries[Join(root, name)]));
  }

  // ---------------------------------------------------------------------------
  // Which names the root check refuses

  lemma {:induction false} StorageRootShape(home: string)
    ensures StorageRoot(home) != "" && StorageRoot(home) != "/"
    ensures Clean(StorageRoot(home)) == StorageRoot(home)
    ensures Join(StorageRoot(home), "..") == Join(home, ".clip")
  {
    assert ".clip/source" == ".clip" + "/" + "source";
    assert IsElement(".clip") && IsElement("source");
    JoinParent(home, ".clip", "source");
  }

  /**
   * A route variable holds one path element (no '/'). Of those, the root
   * check refuses exactly "" and ".".
   */
  lemma {:induction false} RefusedElements(home: string, name: string)
    requires '/' !in name
    ensures Join(StorageRoot(home), name) == StorageRoot(home) <==> name == "" || name == "."
  {
    StorageRootShape(home);
    JoinElementGivesRoot(StorageRoot(home), name);
  }

  /**
   * The gap in the root check: ".." is not refused, and names the
   * directory above the storage root, HOME/.clip, which the handler then
   * opens.
   */
  lemma {:induction false} DotDotEscapes(home: string)
    ensures Join(StorageRoot(home), "..") != StorageRoot(home)
    ensures OpenAttempts(StorageRoot(home), "..") == [Join(home, ".clip")]
  {
    StorageRootShape(home);
    RefusedElements(home, "..");
  }

  /** An element followed by "..", such as "a/..", is refused. */
  lemma {:induction false} UpAndBackRefused(home: string, a: string)
    requires IsElement(a) && a != ".."
    ensures Join(StorageRoot(home), a + "/..") == StorageRoot(home)
  {
    StorageRootShape(home);
    JoinUpAndBack(StorageRoot(home), a);
  }

  /** A name without ".." elements is refused exactly when all its elements are empty or ".". */
  lemma {:induction false} RefusedWithoutDotDot(home: string, name: string)
    requires forall i :: 0 <= i < |Split(name)| ==> Split(name)[i] != ".."
    ensures Join(StorageRoot(home), name) == StorageRoot(home) <==>
      forall i :: 0 <= i < |Split(name)| ==> Split(name)[i] == "" || Split(name)[i] == "."
  {
    StorageRootShape(home);
    JoinWithoutDotDotGivesRoot(StorageRoot(home), name);
  }
}
