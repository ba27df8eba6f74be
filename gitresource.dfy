/** The git remote-resource resolver: validating a location, downloading a file or a whole
    directory tree from the repository host, and classifying what was downloaded. */
module GitResource {
  import opened Wrappers
  import opened FilePath
  import opened GitHubClient
  import opened FileManager

  /** Where downloads go when the caller names no directory (a stand-in for the configured root). */
  const DownloadRoot: string := "/var/log/amazon/ssm/download"

  const JSONExtension: string := ".json"
  const YAMLExtension: string := ".yaml"

  const OwnerMissing := Error("Owner for Git LocationType must be specified")
  const RepositoryMissing := Error("Repository for Git LocationType must be specified")
  const PathMissing := Error("Path for Git LocationType must be specified")
  const PathIsDirectory :=
    Error("Path specified is a directory. Please specify entireDir as true if it is desired to download the entire directory")
  const CouldNotDownload := Error("Could not download from github repository")

  /** The location of a resource in a git repository, as the caller sends it. */
  datatype GitInfo = GitInfo(Owner: string, Repository: string, Path: string, GetOptions: string, TokenInfo: string)

  datatype ResourceType = Script | Document

  /** What the calling plugin learns about a downloaded resource. */
  datatype ResourceInfo = ResourceInfo(
    StarterFile: string,
    LocalDestinationPath: string,
    ResourceExtension: string,
    TypeOfResource: ResourceType,
    EntireDir: bool)

  // ---------------------------------------------------------------- validation

  /** Owner, repository and path must all be given; the first one missing, in that order, is reported. */
  function ValidateLocationInfo(info: GitInfo): (r: (bool, Option<Error>))
    ensures r.0 <==> info.Owner != "" && info.Repository != "" && info.Path != ""
    ensures r.0 <==> r.1.None?
  {
    if info.Owner == "" then (false, Some(OwnerMissing))
    else if info.Repository == "" then (false, Some(RepositoryMissing))
    else if info.Path == "" then (false, Some(PathMissing))
    else (true, None)
  }

  datatype RequiredField = OwnerField | RepositoryField | PathField

  /** The required fields of a location with their values, in the order they are checked. */
  function RequiredFields(info: GitInfo): seq<(RequiredField, string)>
  {
    [(OwnerField, info.Owner), (RepositoryField, info.Repository), (PathField, info.Path)]
  }

  /** The first field in `fields` whose value is empty. */
  function FirstMissing(fields: seq<(RequiredField, string)>): (m: Option<RequiredField>)
    ensures m.None? <==> forall i :: 0 <= i < |fields| ==> fields[i].1 != ""
    ensures m.Some? ==> exists i :: 0 <= i < |fields| && fields[i] == (m.value, "") &&
                                    forall j :: 0 <= j < i ==> fields[j].1 != ""
  {
    if fields == [] then None
    else if fields[0].1 == "" then Some(fields[0].0)
    else
      var m := FirstMissing(fields[1..]);
      if m.Some? then
        ghost var i :| 0 <= i < |fields[1..]| && fields[1..][i] == (m.value, "") &&
                       forall j :: 0 <= j < i ==> fields[1..][j].1 != "";
        assert fields[i + 1] == (m.value, "");
        m
      else m
  }

  /** The error that names a missing field. */
  function MissingFieldError(f: RequiredField): Error
  {
    match f
    case OwnerField => OwnerMissing
    case RepositoryField => RepositoryMissing
    case PathField => PathMissing
  }

  // ---------------------------------------------------------------- classification

  /** The directory downloads go to: the caller's, or the download root when the caller gives none. */
  function EffectiveDir(destinationDir: string): (d: string)
    ensures d != ""
    ensures destinationDir == "" ==> d == DownloadRoot
    ensures destinationDir != "" ==> d == destinationDir
  {
    if destinationDir == "" then DownloadRoot else destinationDir
  }

  /** Describes the resource at `info.Path`: its file name, extension and local path, and whether
      to run it as a script or read it as a document. */
  function PopulateResourceInfo(info: GitInfo, destinationDir: string, entireDir: bool): (ri: ResourceInfo)
    ensures ri.StarterFile == Base(info.Path)
    ensures ri.ResourceExtension == Ext(ri.StarterFile)
    ensures ri.LocalDestinationPath == JoinPath(EffectiveDir(destinationDir), info.Path)
    ensures ri.EntireDir == entireDir
    ensures entireDir ==> ri.TypeOfResource == Script
    ensures !entireDir ==>
      (ri.TypeOfResource == Document <==> ri.ResourceExtension == JSONExtension || ri.ResourceExtension == YAMLExtension)
  {
    var dir := EffectiveDir(destinationDir);
    var starter := Base(info.Path);
    var ext := Ext(starter);
    if entireDir then
      ResourceInfo(starter, JoinPath(dir, info.Path), ext, Script, true)
    else if ext == JSONExtension || ext == YAMLExtension then
      ResourceInfo(starter, JoinPath(dir, info.Path), ext, Document, false)
    else
      ResourceInfo(starter, JoinPath(dir, info.Path), ext, Script, false)
  }

  // ---------------------------------------------------------------- download, as a function

  /** What a download does: the error it returns, the fetches it makes and the files it saves, in order. */
  datatype Trace = Trace(err: Option<Error>, requests: seq<Request>, writes: seq<Write>)

  /** `done`, which succeeded, followed by `next`. */
  function Then(done: Trace, next: Trace): Trace
  {
    Trace(next.err, done.requests + next.requests, done.writes + next.writes)
  }

  /** The location fetched for a directory entry: same owner, repository and options, the entry's path, no token. */
  function ChildInfo(info: GitInfo, entryPath: string): (c: GitInfo)
    ensures c == info.(Path := entryPath, TokenInfo := "")
  {
    GitInfo(info.Owner, info.Repository, entryPath, info.GetOptions, "")
  }

  /** Every entry of `entries` ranks below the directory `path`. */
  ghost predicate RankedBelow(r: Remote, path: string, entries: seq<string>)
  {
    forall i :: 0 <= i < |entries| ==> r.rank(entries[i]) < r.rank(path)
  }

  /** The download of one location: parse the options, fetch the path, then recurse into a listing,
      save a file, or fail. */
  function Run(r: Remote, faults: (string, string) -> Option<Error>, info: GitInfo, entireDir: bool,
               destinationDir: string): (t: Trace)
    requires WellRanked(r)
    ensures r.parseGetOptions(info.GetOptions).Failure? ==>
      t == Trace(Some(r.parseGetOptions(info.GetOptions).error), [], [])
    ensures r.parseGetOptions(info.GetOptions).Success? ==>
      var req := Request(info.Owner, info.Repository, info.Path, r.parseGetOptions(info.GetOptions).value);
      && |t.requests| >= 1 && t.requests[0] == req
      && (r.contents(req.owner, req.repository, req.path, req.options).FetchErr? ==>
            t == Trace(Some(r.contents(req.owner, req.repository, req.path, req.options).err), [req], []))
    decreases r.rank(info.Path), 2
  {
    match r.parseGetOptions(info.GetOptions)
    case Failure(e) => Trace(Some(e), [], [])
    case Success(opt) =>
      var req := Request(info.Owner, info.Repository, info.Path, opt);
      var rest := Handle(r, faults, info, opt, r.contents(info.Owner, info.Repository, info.Path, opt),
                         entireDir, EffectiveDir(destinationDir));
      Then(Trace(None, [req], []), rest)
  }

  /** What a download does with the fetched contents of `info.Path`: recurse into a listing, save a file, or fail. */
  function Handle(r: Remote, faults: (string, string) -> Option<Error>, info: GitInfo, opt: ListOptions,
                  fetched: Contents, entireDir: bool, dir: string): (t: Trace)
    requires WellRanked(r)
    requires fetched == r.contents(info.Owner, info.Repository, info.Path, opt)
    ensures fetched.FetchErr? ==> t == Trace(Some(fetched.err), [], [])
    ensures !entireDir && !IsFileContentType(fetched) ==> t.err.Some? && t.requests == [] && t.writes == []
    decreases r.rank(info.Path), 1
  {
    match fetched
    case FetchErr(e) => Trace(Some(e), [], [])
    case DirListing(entries) =>
      if entireDir then
        assert Listing(r, info.Owner, info.Repository, info.Path, opt) == entries;
        Entries(r, faults, info, entries, dir)
      else Trace(Some(PathIsDirectory), [], [])
    case File(meta) =>
      if IsFileContentType(fetched) then SaveFile(faults, meta, dir)
      else if !entireDir then Trace(Some(PathIsDirectory), [], [])
      else Trace(Some(CouldNotDownload), [], [])
  }

  /** Decoding a fetched file and saving it under `dir`. */
  function SaveFile(faults: (string, string) -> Option<Error>, meta: FileMeta, dir: string): (t: Trace)
    ensures t.requests == [] && |t.writes| <= 1
    ensures t.err.None? <==> meta.content.Success? && faults(dir, meta.path).None?
    ensures t.err.None? <==> t.writes != []
    ensures t.writes != [] ==> t.writes[0] == Write(dir, meta.path, meta.content.value)
    ensures meta.content.Failure? ==> t.err == Some(meta.content.error)
    ensures meta.content.Success? && faults(dir, meta.path).Some? ==> t.err == faults(dir, meta.path)
  {
    match meta.content
    case Failure(e) => Trace(Some(e), [], [])
    case Success(content) =>
      match faults(dir, meta.path)
      case Some(e) => Trace(Some(e), [], [])
      case None => Trace(None, [], [Write(dir, meta.path, content)])
  }

  /** The downloads of a directory's entries, in listing order, stopping at the first that fails. */
  function Entries(r: Remote, faults: (string, string) -> Option<Error>, info: GitInfo, entries: seq<string>,
                   dir: string): (t: Trace)
    requires WellRanked(r) && RankedBelow(r, info.Path, entries)
    ensures entries == [] ==> t == Trace(None, [], [])
    ensures entries != [] && r.parseGetOptions(info.GetOptions).Failure? ==>
      t == Trace(Some(r.parseGetOptions(info.GetOptions).error), [], [])
    ensures entries != [] && r.parseGetOptions(info.GetOptions).Success? ==>
      |t.requests| >= 1 && t.requests[0] == Request(info.Owner, info.Repository, entries[0], r.parseGetOptions(info.GetOptions).value)
    decreases r.rank(info.Path), 0, |entries|
  {
    if entries == [] then Trace(None, [], [])
    else
      var first := Run(r, faults, ChildInfo(info, entries[0]), true, dir);
      if first.err.Some? then first
      else Then(first, Entries(r, faults, info, entries[1..], dir))
  }

  lemma ConcatAssociative<T>(a: seq<T>, b: seq<T>, c: seq<T>)
    ensures a + b + c == a + (b + c)
  {
  }

  lemma ThenAssociative(a: Trace, b: Trace, c: Trace)
    ensures Then(a, Then(b, c)) == Then(Then(a, b), c)
  {
    ConcatAssociative(a.requests, b.requests, c.requests);
    ConcatAssociative(a.writes, b.writes, c.writes);
  }

  /** A log that held `base + doneLog` and then had `childLog` appended holds `base + (doneLog + childLog)`. */
  lemma LogStep<T>(base: seq<T>, doneLog: seq<T>, before: seq<T>, childLog: seq<T>, after: seq<T>)
    requires before == base + doneLog && after == before + childLog
    ensures after == base + (doneLog + childLog)
  {
    ConcatAssociative(base, doneLog, childLog);
  }

  lemma ThenDone(t: Trace)
    requires t.err.None?
    ensures Then(t, Trace(None, [], [])) == t
  {
    assert t.requests + [] == t.requests && t.writes + [] == t.writes;
  }

  /** Entry `k` of a listing is downloaded next, and the rest only if it succeeds. */
  lemma EntriesStep(r: Remote, faults: (string, string) -> Option<Error>, info: GitInfo, entries: seq<string>,
                    k: nat, dir: string)
    requires WellRanked(r) && RankedBelow(r, info.Path, entries) && k < |entries|
    ensures var child := Run(r, faults, ChildInfo(info, entries[k]), true, dir);
            Entries(r, faults, info, entries[k..], dir)
              == if child.err.Some? then child else Then(child, Entries(r, faults, info, entries[k + 1..], dir))
  {
    assert entries[k..][1..] == entries[k + 1..];
  }

  // ---------------------------------------------------------------- download, as the program does it

  class GitResource {
    const client: GitClient
    const Info: GitInfo

    constructor (client: GitClient, info: GitInfo)
      ensures this.client == client && Info == info
    {
      this.client := client;
      Info := info;
    }

    /** Downloads the location's path, or with `entireDir` the whole directory that contains it. */
    method Download(fs: FileSystem, entireDir: bool, destinationDir: string) returns (err: Option<Error>)
      requires WellRanked(client.remote)
      modifies fs, client
      ensures var t := Run(client.remote, fs.faults, if entireDir then Info.(Path := Dir(Info.Path)) else Info,
                           entireDir, destinationDir);
              && err == t.err
              && fs.written == old(fs.written) + t.writes
              && client.requests == old(client.requests) + t.requests
    {
      var input := Info;
      if entireDir {
        input := input.(Path := Dir(input.Path));
      }
      err := DownloadInfo(fs, input, entireDir, destinationDir);
    }

    /** Downloads one location: a directory's entries one by one, depth first, or a single file. */
    method DownloadInfo(fs: FileSystem, info: GitInfo, entireDir: bool, destinationDir: string)
      returns (err: Option<Error>)
      requires WellRanked(client.remote)
      modifies fs, client
      ensures var t := Run(client.remote, fs.faults, info, entireDir, destinationDir);
              && err == t.err
              && fs.written == old(fs.written) + t.writes
              && client.requests == old(client.requests) + t.requests
      decreases client.remote.rank(info.Path), 2
    {
      var opt := client.ParseGetOptions(info.GetOptions);
      if opt.Failure? {
        return Some(opt.error);
      }
      var fetched := client.GetRepositoryContents(info.Owner, info.Repository, info.Path, opt.value);
      var dir := destinationDir;
      if dir == "" {
        dir := DownloadRoot;
      }
      ghost var fetchedBefore := client.requests;
      err := HandleContents(fs, info, opt.value, fetched, entireDir, dir);
      ghost var rest := Handle(client.remote, fs.faults, info, opt.value, fetched, entireDir, dir);
      LogStep(old(client.requests), [Request(info.Owner, info.Repository, info.Path, opt.value)], fetchedBefore,
              rest.requests, client.requests);
      assert old(fs.written) + ([] + rest.writes) == fs.written;
    }

    /** What a download does with the fetched contents: the fetch error, a listing's entries one by one, depth first, or a single file. */
    method HandleContents(fs: FileSystem, info: GitInfo, opt: ListOptions, fetched: Contents, entireDir: bool, dir: string)
      returns (err: Option<Error>)
      requires WellRanked(client.remote)
      requires fetched == client.remote.contents(info.Owner, info.Repository, info.Path, opt)
      modifies fs, client
      ensures var t := Handle(client.remote, fs.faults, info, opt, fetched, entireDir, dir);
              && err == t.err
              && fs.written == old(fs.written) + t.writes
              && client.requests == old(client.requests) + t.requests
      decreases client.remote.rank(info.Path), 1
    {
      if fetched.FetchErr? {
        return Some(fetched.err);
      }
      if fetched.DirListing? && entireDir {
        assert Listing(client.remote, info.Owner, info.Repository, info.Path, opt) == fetched.entries;
        err := DownloadEntries(fs, info, fetched.entries, dir);
      } else if IsFileContentType(fetched) {
        var content := fetched.meta.content;
        if content.Failure? {
          return Some(content.error);
        }
        err := SaveFileContent(fs, dir, content.value, fetched.meta.path);
      } else if !entireDir {
        err := Some(PathIsDirectory);
      } else {
        err := Some(CouldNotDownload);
      }
    }

    /** The loop over a directory listing: each entry in order, stopping at the first failure. */
    method DownloadEntries(fs: FileSystem, info: GitInfo, entries: seq<string>, dir: string)
      returns (err: Option<Error>)
      requires WellRanked(client.remote) && RankedBelow(client.remote, info.Path, entries)
      modifies fs, client
      ensures var t := Entries(client.remote, fs.faults, info, entries, dir);
              && err == t.err
              && fs.written == old(fs.written) + t.writes
              && client.requests == old(client.requests) + t.requests
      decreases client.remote.rank(info.Path), 0
    {
      ghost var r, faults := client.remote, fs.faults;
      ghost var total := Entries(r, faults, info, entries, dir);
      ghost var done := Trace(None, [], []);
      for k := 0 to |entries|
        invariant done.err.None?
        invariant total == Then(done, Entries(r, faults, info, entries[k..], dir))
        invariant fs.written == old(fs.written) + done.writes
        invariant client.requests == old(client.requests) + done.requests
      {
        EntriesStep(r, faults, info, entries, k, dir);
        ghost var child := Run(r, faults, ChildInfo(info, entries[k]), true, dir);
        ghost var rest := Entries(r, faults, info, entries[k + 1..], dir);
        ghost var writtenBefore, fetchedBefore := fs.written, client.requests;
        err := DownloadInfo(fs, ChildInfo(info, entries[k]), true, dir);
        LogStep(old(fs.written), done.writes, writtenBefore, child.writes, fs.written);
        LogStep(old(client.requests), done.requests, fetchedBefore, child.requests, client.requests);
        if err.Some? {
          return;
        }
        ThenAssociative(done, child, rest);
        done := Then(done, child);
      }
      assert entries[|entries|..] == [];
      ThenDone(done);
      err := None;
    }
  }
}
