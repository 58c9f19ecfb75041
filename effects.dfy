/** The outside world of the page loader: the network (requests.get) and the
    file system (mkdir, isdir, open/write), as oracles, and a Host that
    performs these effects one at a time and records each in a log.

    An oracle answers from the effects performed so far and its argument,
    so the same URL or path may give different answers at different
    moments of a run. */
module Effects {
  import opened Wrappers

  newtype Byte = x: int | 0 <= x < 256

  /** What a page or resource holds once read: raw bytes
      (response.content) or decoded text (response.text, str(soup)). */
  datatype Body = Bytes(bytes: seq<Byte>) | Text(text: string)

  /** A response received from the server. */
  datatype Reply = Reply(
    status: int,
    encoding: Option<string>,
    content: seq<Byte>,
    text: string,
    finalUrl: string)

  /** What requests.get does: raise a RequestException (no connection,
      DNS failure, timeout, ...) or return a response. */
  datatype GetOutcome = Unreachable | Answered(reply: Reply)

  /** What os.mkdir does. */
  datatype MkdirOutcome = Made | MkdirDenied | MkdirFailed

  /** What write_file's isdir check and open/write do. */
  datatype WriteOutcome = Written | NoDirectory | WriteDenied | WriteFailed

  /** The exceptions that reach download_page. */
  datatype Error =
    | RequestFailed(url: string)       // RequestException re-raised by send_request
    | HttpFailed(status: int)          // HTTPError from raise_for_status
    | DirectoryExists(path: string)    // OSError from create_directory
    | DirectoryMissing(path: string)   // OSError from write_file's isdir check
    | PermissionDenied(path: string)   // PermissionError
    | OtherOsError(path: string)       // any other OSError from open or write

  /** RequestException or one of its subclasses (HTTPError). */
  predicate IsRequestException(e: Error)
  {
    e.RequestFailed? || e.HttpFailed?
  }

  /** OSError or one of its subclasses (PermissionError). */
  predicate IsOSError(e: Error)
  {
    e.DirectoryExists? || e.DirectoryMissing? || e.PermissionDenied? || e.OtherOsError?
  }

  /** One performed effect and what the world answered. */
  datatype Effect =
    | Fetched(url: string, got: GetOutcome)
    | MadeDir(path: string, made: MkdirOutcome)
    | Stored(path: string, body: Body, binary: bool, wrote: WriteOutcome)

  /** The oracles, each asked with the effects performed so far. */
  datatype World = World(
    net: (seq<Effect>, string) -> GetOutcome,
    mkdir: (seq<Effect>, string) -> MkdirOutcome,
    store: (seq<Effect>, string) -> WriteOutcome)

  /** The files that a series of effects leaves behind, starting from files. */
  function FilesAfter(files: map<string, Body>, es: seq<Effect>): map<string, Body>
  {
    if es == [] then files
    else
      var before := FilesAfter(files, es[..|es| - 1]);
      var e := es[|es| - 1];
      if e.Stored? && e.wrote.Written? then before[e.path := e.body] else before
  }

  /** Effects performed one after another act on files one after another. */
  lemma {:induction false} FilesAfterAppend(files: map<string, Body>, a: seq<Effect>, b: seq<Effect>)
    ensures FilesAfter(files, a + b) == FilesAfter(FilesAfter(files, a), b)
    decreases |b|
  {
    if b != [] {
      assert (a + b)[..|a + b| - 1] == a + b[..|b| - 1];
      FilesAfterAppend(files, a, b[..|b| - 1]);
    } else {
      assert a + b == a;
    }
  }

  /** Effects that write elsewhere leave the file at p as it is. */
  lemma {:induction false} FilesAfterElsewhere(files: map<string, Body>, es: seq<Effect>, p: string)
    requires forall k :: 0 <= k < |es| && es[k].Stored? ==> es[k].path != p
    ensures p in FilesAfter(files, es) <==> p in files
    ensures p in files ==> FilesAfter(files, es)[p] == files[p]
    decreases |es|
  {
    if es != [] {
      FilesAfterElsewhere(files, es[..|es| - 1], p);
    }
  }

  /** Appending to a log in two steps or one. */
  lemma SeqAssoc(a: seq<Effect>, b: seq<Effect>, c: seq<Effect>)
    ensures (a + b) + c == a + (b + c)
  {
  }

  /** Effects that store nothing leave the files as they are. */
  lemma {:induction false} FilesAfterUnstored(files: map<string, Body>, es: seq<Effect>)
    requires forall k :: 0 <= k < |es| ==> !es[k].Stored?
    ensures FilesAfter(files, es) == files
    decreases |es|
  {
    if es != [] {
      FilesAfterUnstored(files, es[..|es| - 1]);
    }
  }

  /** The process's view of the network and the disk. */
  class Host {
    const world: World
    var log: seq<Effect>
    var files: map<string, Body>

    constructor (world: World, files: map<string, Body>)
      ensures this.world == world && log == [] && this.files == files
    {
      this.world := world;
      this.log := [];
      this.files := files;
    }

    /** requests.get(url). */
    method Get(url: string) returns (got: GetOutcome)
      modifies this
      ensures got == world.net(old(log), url)
      ensures log == old(log) + [Fetched(url, got)]
      ensures files == old(files)
    {
      got := world.net(log, url);
      log := log + [Fetched(url, got)];
    }

    /** os.mkdir(path). */
    method MakeDir(path: string) returns (made: MkdirOutcome)
      modifies this
      ensures made == world.mkdir(old(log), path)
      ensures log == old(log) + [MadeDir(path, made)]
      ensures files == old(files)
    {
      made := world.mkdir(log, path);
      log := log + [MadeDir(path, made)];
    }

    /** The isdir check and open(path, mode).write(body) of write_file;
        a successful write replaces whatever the path held. */
    method Store(path: string, body: Body, binary: bool) returns (wrote: WriteOutcome)
      modifies this
      ensures wrote == world.store(old(log), path)
      ensures log == old(log) + [Stored(path, body, binary, wrote)]
      ensures files == FilesAfter(old(files), [Stored(path, body, binary, wrote)])
    {
      wrote := world.store(log, path);
      var e := Stored(path, body, binary, wrote);
      assert [e][..0] == [];
      log := log + [e];
      if wrote.Written? {
        files := files[path := body];
      }
    }
  }
}
