/** What the resolver promises, proved about the functions that describe it. */
module GitResourceProperties {
  import opened Wrappers
  import opened FilePath
  import opened GitHubClient
  import opened FileManager
  import opened GitResource

  // ---------------------------------------------------------------- validation

  /** Validation fails exactly when a required field is empty, and its error names the first
      empty one in the order owner, repository, path. */
  lemma ValidateReportsFirstMissing(info: GitInfo)
    ensures var r := ValidateLocationInfo(info);
            var missing := FirstMissing(RequiredFields(info));
            && (r.0 <==> missing.None?)
            && (missing.Some? ==> r.1 == Some(MissingFieldError(missing.value)))
  {
    var fields := RequiredFields(info);
    var tail1, tail2 := fields[1..], fields[1..][1..];
    assert tail2[1..] == [];
    assert FirstMissing(tail2) == if info.Path == "" then Some(PathField) else None;
    assert FirstMissing(tail1) == if info.Repository == "" then Some(RepositoryField) else FirstMissing(tail2);
  }

  // ---------------------------------------------------------------- classification

  /** For a single file, the resource is a document exactly when its path ends in ".json" or ".yaml". */
  lemma DocumentIffDocumentSuffix(info: GitInfo, destinationDir: string)
    requires info.Path == [] || info.Path[|info.Path| - 1] != Separator
    ensures PopulateResourceInfo(info, destinationDir, false).TypeOfResource == Document
            <==> IsSuffix(JSONExtension, info.Path) || IsSuffix(YAMLExtension, info.Path)
  {
    var p := info.Path;
    var ext := Ext(Base(p));
    assert PopulateResourceInfo(info, destinationDir, false).TypeOfResource == Document
           <==> ext == JSONExtension || ext == YAMLExtension;
    DocumentExtensionsDotted();
    if p == [] {
      ExtOfEmptyPath();
    } else {
      DottedExtension(p, Base(p), JSONExtension);
      DottedExtension(p, Base(p), YAMLExtension);
    }
  }

  lemma DocumentExtensionsDotted()
    ensures JSONExtension[0] == '.' && '.' !in JSONExtension[1..] && Separator !in JSONExtension
    ensures YAMLExtension[0] == '.' && '.' !in YAMLExtension[1..] && Separator !in YAMLExtension
  {
    assert JSONExtension[1..] == "json";
    assert YAMLExtension[1..] == "yaml";
  }

  /** The empty path has base name "." and so the extension ".". */
  lemma ExtOfEmptyPath()
    ensures Ext(Base("")) == "."
  {
    LastSegmentUnique(".", ".");
  }

  /** `Ext` of the base name `b` of `p` equals the dotted extension `x` exactly when `p` ends in `x`. */
  lemma DottedExtension(p: string, b: string, x: string)
    requires p != [] && p[|p| - 1] != Separator && b == Base(p)
    requires |x| >= 1 && x[0] == '.' && '.' !in x[1..] && Separator !in x
    ensures Ext(b) == x <==> IsSuffix(x, p)
  {
    ExtOfDottedSuffix(b, x);
    SeparatorFreeSuffix(b, x);
    SeparatorFreeSuffix(p, x);
  }

  // ---------------------------------------------------------------- one fetch

  /** What a single fetch leads to: a file is saved once, or not at all when its content cannot be
      decoded or saved; a directory without `entireDir`, and anything else, is an error. */
  lemma SingleFetchOutcome(r: Remote, faults: (string, string) -> Option<Error>, info: GitInfo, entireDir: bool,
                           destinationDir: string, opt: ListOptions)
    requires WellRanked(r)
    requires r.parseGetOptions(info.GetOptions) == Success(opt)
    ensures var t := Run(r, faults, info, entireDir, destinationDir);
            var req := Request(info.Owner, info.Repository, info.Path, opt);
            var dir := EffectiveDir(destinationDir);
            var c := r.contents(info.Owner, info.Repository, info.Path, opt);
            match c
            case FetchErr(e) => t == Trace(Some(e), [req], [])
            case File(meta) =>
              if IsFileContentType(c) then
                t.requests == [req] &&
                match meta.content
                case Failure(e) => t.err == Some(e) && t.writes == []
                case Success(c) =>
                  t.err == faults(dir, meta.path) &&
                  t.writes == if t.err.None? then [Write(dir, meta.path, c)] else []
              else t == Trace(Some(if entireDir then CouldNotDownload else PathIsDirectory), [req], [])
            case DirListing(entries) =>
              && (!entireDir ==> t == Trace(Some(PathIsDirectory), [req], []))
              && (entireDir ==> Listing(r, info.Owner, info.Repository, info.Path, opt) == entries &&
                                t == Then(Trace(None, [req], []), Entries(r, faults, info, entries, dir)))
  {
  }

  /** Without `entireDir` there is no recursion: at most one fetch and at most one saved file. */
  lemma SingleFileModeFetchesOnce(r: Remote, faults: (string, string) -> Option<Error>, info: GitInfo,
                                  destinationDir: string)
    requires WellRanked(r)
    ensures var t := Run(r, faults, info, false, destinationDir);
            |t.requests| <= 1 && |t.writes| <= 1
  {
  }

  // ---------------------------------------------------------------- directory listings

  /** The downloads of each entry of a listing, taken on their own. */
  function ChildRuns(r: Remote, faults: (string, string) -> Option<Error>, info: GitInfo, entries: seq<string>,
                     dir: string): (cs: seq<Trace>)
    requires WellRanked(r) && RankedBelow(r, info.Path, entries)
    ensures |cs| == |entries|
  {
    seq(|entries|, i requires 0 <= i < |entries| => Run(r, faults, ChildInfo(info, entries[i]), true, dir))
  }

  function AllRequests(ts: seq<Trace>): seq<Request>
  {
    if ts == [] then [] else ts[0].requests + AllRequests(ts[1..])
  }

  function AllWrites(ts: seq<Trace>): seq<Write>
  {
    if ts == [] then [] else ts[0].writes + AllWrites(ts[1..])
  }

  /** Entry `i` is the first whose download fails. */
  predicate FailsFirstAt(cs: seq<Trace>, i: int)
  {
    0 <= i < |cs| && cs[i].err.Some? && forall j :: 0 <= j < i ==> cs[j].err.None?
  }

  /** A listing's entries are downloaded in order. When all succeed, their fetches and saves follow
      one another; otherwise the first failure's error is returned and no later entry is fetched. */
  lemma {:induction false} EntriesFailFast(r: Remote, faults: (string, string) -> Option<Error>, info: GitInfo,
                                           entries: seq<string>, dir: string)
    requires WellRanked(r) && RankedBelow(r, info.Path, entries)
    ensures var t := Entries(r, faults, info, entries, dir);
            var cs := ChildRuns(r, faults, info, entries, dir);
            && (t.err.None? <==> forall i :: 0 <= i < |cs| ==> cs[i].err.None?)
            && (t.err.None? ==> t.requests == AllRequests(cs) && t.writes == AllWrites(cs))
            && (t.err.Some? ==>
                  exists i :: FailsFirstAt(cs, i) && t.err == cs[i].err &&
                              t.requests == AllRequests(cs[..i + 1]) && t.writes == AllWrites(cs[..i + 1]))
  {
    if entries != [] {
      var cs := ChildRuns(r, faults, info, entries, dir);
      var rest := ChildRuns(r, faults, info, entries[1..], dir);
      var t := Entries(r, faults, info, entries, dir);
      var t' := Entries(r, faults, info, entries[1..], dir);
      ChildRunsTail(r, faults, info, entries, dir);
      assert t == if cs[0].err.Some? then cs[0] else Then(cs[0], t');
      if cs[0].err.Some? {
        FirstFails(cs);
      } else {
        EntriesFailFast(r, faults, info, entries[1..], dir);
        if t'.err.Some? {
          var i' :| FailsFirstAt(rest, i') && t'.err == rest[i'].err &&
                    t'.requests == AllRequests(rest[..i' + 1]) && t'.writes == AllWrites(rest[..i' + 1]);
          LaterFails(cs, i');
        } else {
          NoneFails(cs);
        }
      }
    }
  }

  lemma ChildRunsTail(r: Remote, faults: (string, string) -> Option<Error>, info: GitInfo, entries: seq<string>,
                      dir: string)
    requires WellRanked(r) && RankedBelow(r, info.Path, entries) && entries != []
    ensures var cs := ChildRuns(r, faults, info, entries, dir);
            && cs[0] == Run(r, faults, ChildInfo(info, entries[0]), true, dir)
            && cs[1..] == ChildRuns(r, faults, info, entries[1..], dir)
  {
  }

  lemma FirstFails(cs: seq<Trace>)
    requires cs != [] && cs[0].err.Some?
    ensures FailsFirstAt(cs, 0) && AllRequests(cs[..1]) == cs[0].requests && AllWrites(cs[..1]) == cs[0].writes
  {
    assert cs[..1][1..] == [];
  }

  lemma LaterFails(cs: seq<Trace>, i: int)
    requires cs != [] && cs[0].err.None? && FailsFirstAt(cs[1..], i)
    ensures FailsFirstAt(cs, i + 1)
    ensures AllRequests(cs[..i + 2]) == cs[0].requests + AllRequests(cs[1..][..i + 1])
    ensures AllWrites(cs[..i + 2]) == cs[0].writes + AllWrites(cs[1..][..i + 1])
  {
    assert cs[..i + 2][1..] == cs[1..][..i + 1];
    forall j | 0 <= j < i + 1
      ensures cs[j].err.None?
    {
      if j > 0 {
        assert cs[j] == cs[1..][j - 1];
      }
    }
  }

  lemma NoneFails(cs: seq<Trace>)
    requires cs != [] && cs[0].err.None? && forall i :: 0 <= i < |cs[1..]| ==> cs[1..][i].err.None?
    ensures forall i :: 0 <= i < |cs| ==> cs[i].err.None?
  {
    forall i | 0 <= i < |cs|
      ensures cs[i].err.None?
    {
      if i > 0 {
        assert cs[i] == cs[1..][i - 1];
      }
    }
  }

  /** Each entry's download starts by fetching the entry's own path, with the listing's owner,
      repository and options. */
  lemma ChildrenInheritDescriptor(r: Remote, faults: (string, string) -> Option<Error>, info: GitInfo,
                                  entries: seq<string>, dir: string, opt: ListOptions)
    requires WellRanked(r) && RankedBelow(r, info.Path, entries)
    requires r.parseGetOptions(info.GetOptions) == Success(opt)
    ensures var cs := ChildRuns(r, faults, info, entries, dir);
            forall i :: 0 <= i < |cs| ==>
              |cs[i].requests| >= 1 && cs[i].requests[0] == Request(info.Owner, info.Repository, entries[i], opt)
  {
  }

  // ---------------------------------------------------------------- what gets saved

  /** `w` holds the decoded content of a file that one of `requests` fetched, at that file's path. */
  ghost predicate FetchedFile(r: Remote, requests: seq<Request>, w: Write)
  {
    exists q :: q in requests &&
      r.contents(q.owner, q.repository, q.path, q.options) == File(FileMeta(Success(w.content), true, w.relPath))
  }

  lemma FetchedFileIn(r: Remote, a: seq<Request>, b: seq<Request>, w: Write)
    requires FetchedFile(r, a, w) || FetchedFile(r, b, w)
    ensures FetchedFile(r, a + b, w)
  {
    var q :| (q in a || q in b) &&
      r.contents(q.owner, q.repository, q.path, q.options) == File(FileMeta(Success(w.content), true, w.relPath));
    assert q in a + b;
  }

  /** Every saved file goes to the effective destination directory and holds the decoded content of
      a file-kind fetch made by the same download, at that file's path. */
  lemma {:induction false} RunSavesOnlyFetchedFiles(r: Remote, faults: (string, string) -> Option<Error>,
                                                    info: GitInfo, entireDir: bool, destinationDir: string)
    requires WellRanked(r)
    ensures var t := Run(r, faults, info, entireDir, destinationDir);
            forall w :: w in t.writes ==> w.dir == EffectiveDir(destinationDir) && FetchedFile(r, t.requests, w)
    decreases r.rank(info.Path), 1
  {
    match r.parseGetOptions(info.GetOptions)
    case Failure(_) =>
    case Success(opt) =>
      var dir := EffectiveDir(destinationDir);
      var req := Request(info.Owner, info.Repository, info.Path, opt);
      match r.contents(info.Owner, info.Repository, info.Path, opt)
      case FetchErr(_) =>
      case File(meta) =>
        var t := Run(r, faults, info, entireDir, destinationDir);
        forall w | w in t.writes
          ensures w.dir == dir && FetchedFile(r, t.requests, w)
        {
          assert req in t.requests;
        }
      case DirListing(entries) =>
        if entireDir {
          assert Listing(r, info.Owner, info.Repository, info.Path, opt) == entries;
          EntriesSaveOnlyFetchedFiles(r, faults, info, entries, dir);
          var t := Run(r, faults, info, entireDir, destinationDir);
          var inner := Entries(r, faults, info, entries, dir);
          forall w | w in t.writes
            ensures w.dir == dir && FetchedFile(r, t.requests, w)
          {
            FetchedFileIn(r, [req], inner.requests, w);
          }
        }
  }

  lemma {:induction false} EntriesSaveOnlyFetchedFiles(r: Remote, faults: (string, string) -> Option<Error>,
                                                       info: GitInfo, entries: seq<string>, dir: string)
    requires WellRanked(r) && RankedBelow(r, info.Path, entries) && dir != ""
    ensures var t := Entries(r, faults, info, entries, dir);
            forall w :: w in t.writes ==> w.dir == dir && FetchedFile(r, t.requests, w)
    decreases r.rank(info.Path), 0, |entries|
  {
    if entries != [] {
      var first := Run(r, faults, ChildInfo(info, entries[0]), true, dir);
      RunSavesOnlyFetchedFiles(r, faults, ChildInfo(info, entries[0]), true, dir);
      if first.err.None? {
        EntriesSaveOnlyFetchedFiles(r, faults, info, entries[1..], dir);
        var rest := Entries(r, faults, info, entries[1..], dir);
        forall w | w in first.writes + rest.writes
          ensures FetchedFile(r, first.requests + rest.requests, w)
        {
          FetchedFileIn(r, first.requests, rest.requests, w);
        }
      }
    }
  }

  /** `q` fetched a file-kind file, and its decoded content was saved at its path under `dir`. */
  ghost predicate SavedIfFile(r: Remote, writes: seq<Write>, dir: string, q: Request)
  {
    var c := r.contents(q.owner, q.repository, q.path, q.options);
    IsFileContentType(c) ==> c.meta.content.Success? && Write(dir, c.meta.path, c.meta.content.value) in writes
  }

  lemma SavedIfFileIn(r: Remote, a: seq<Write>, b: seq<Write>, dir: string, q: Request)
    requires SavedIfFile(r, a, dir, q) || SavedIfFile(r, b, dir, q)
    ensures SavedIfFile(r, a + b, dir, q)
  {
  }

  /** A download that succeeds has saved every file-kind file it fetched. */
  lemma {:induction false} RunSavesEveryFetchedFile(r: Remote, faults: (string, string) -> Option<Error>,
                                                    info: GitInfo, entireDir: bool, destinationDir: string)
    requires WellRanked(r)
    ensures var t := Run(r, faults, info, entireDir, destinationDir);
            t.err.None? ==> forall q :: q in t.requests ==> SavedIfFile(r, t.writes, EffectiveDir(destinationDir), q)
    decreases r.rank(info.Path), 1
  {
    match r.parseGetOptions(info.GetOptions)
    case Failure(_) =>
    case Success(opt) =>
      var dir := EffectiveDir(destinationDir);
      match r.contents(info.Owner, info.Repository, info.Path, opt)
      case FetchErr(_) =>
      case File(meta) =>
      case DirListing(entries) =>
        if entireDir {
          assert Listing(r, info.Owner, info.Repository, info.Path, opt) == entries;
          EntriesSaveEveryFetchedFile(r, faults, info, entries, dir);
        }
  }

  lemma {:induction false} EntriesSaveEveryFetchedFile(r: Remote, faults: (string, string) -> Option<Error>,
                                                       info: GitInfo, entries: seq<string>, dir: string)
    requires WellRanked(r) && RankedBelow(r, info.Path, entries) && dir != ""
    ensures var t := Entries(r, faults, info, entries, dir);
            t.err.None? ==> forall q :: q in t.requests ==> SavedIfFile(r, t.writes, dir, q)
    decreases r.rank(info.Path), 0, |entries|
  {
    if entries != [] {
      var first := Run(r, faults, ChildInfo(info, entries[0]), true, dir);
      RunSavesEveryFetchedFile(r, faults, ChildInfo(info, entries[0]), true, dir);
      assert EffectiveDir(dir) == dir;
      if first.err.None? {
        EntriesSaveEveryFetchedFile(r, faults, info, entries[1..], dir);
        var rest := Entries(r, faults, info, entries[1..], dir);
        if rest.err.None? {
          forall q | q in first.requests + rest.requests
            ensures SavedIfFile(r, first.writes + rest.writes, dir, q)
          {
            SavedIfFileIn(r, first.writes, rest.writes, dir, q);
          }
        }
      }
    }
  }

  // ---------------------------------------------------------------- an end-to-end example

  /** Fetching "scripts/run.sh" from a host that serves it as a file with content "echo hi", with
      no destination directory, saves that content once under the download root and describes the
      resource as the script "run.sh". */
  lemma RunScriptExample(r: Remote, faults: (string, string) -> Option<Error>, opt: ListOptions)
    requires WellRanked(r)
    requires r.parseGetOptions("") == Success(opt)
    requires r.contents("o", "r", "scripts/run.sh", opt) == File(FileMeta(Success("echo hi"), true, "scripts/run.sh"))
    requires faults(DownloadRoot, "scripts/run.sh") == None
    ensures var info := GitInfo("o", "r", "scripts/run.sh", "", "");
            && Run(r, faults, info, false, "")
               == Trace(None, [Request("o", "r", "scripts/run.sh", opt)], [Write(DownloadRoot, "scripts/run.sh", "echo hi")])
            && PopulateResourceInfo(info, "", false)
               == ResourceInfo("run.sh", JoinPath(DownloadRoot, "scripts/run.sh"), ".sh", Script, false)
  {
    var info := GitInfo("o", "r", "scripts/run.sh", "", "");
    SingleFetchOutcome(r, faults, info, false, "", opt);
    ScriptNameAndExtension();
    var ri := PopulateResourceInfo(info, "", false);
    assert ri.ResourceExtension == ".sh";
    assert ri.TypeOfResource == Script;
  }

  lemma ScriptNameAndExtension()
    ensures Base("scripts/run.sh") == "run.sh" && Ext("run.sh") == ".sh"
  {
    ScriptBaseName();
    ScriptExtension();
  }

  lemma ScriptBaseName()
    ensures Base("scripts/run.sh") == "run.sh"
  {
    assert "scripts/run.sh" == "scripts" + [Separator] + "run.sh";
    DirAndBaseOfJoin("scripts", "run.sh");
  }

  lemma ScriptExtension()
    ensures Ext("run.sh") == ".sh"
  {
    assert "run.sh" == "run" + ".sh";
    assert ".sh"[1..] == "sh";
    ExtOfStemAndDottedSuffix("run", ".sh");
  }

  /** A separator-free name made of a stem and a dotted suffix with no further '.' has that suffix as its extension. */
  lemma ExtOfStemAndDottedSuffix(stem: string, x: string)
    requires Separator !in stem && Separator !in x
    requires |x| >= 1 && x[0] == '.' && '.' !in x[1..]
    ensures Ext(stem + x) == x
  {
    var name := stem + x;
    DirAndBaseOfName(name);
    assert name[|name| - |x|..] == x;
    ExtOfDottedSuffix(name, x);
  }
}
