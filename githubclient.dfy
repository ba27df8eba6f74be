/** The hosting client the resolver talks to, as an oracle: what each options string parses to
    and what each repository path holds. The request log is instrumentation, not client state. */
module GitHubClient {
  import opened Wrappers

  /** The parsed `getOptions`; the resolver only forwards it. */
  datatype ListOptions = ListOptions(query: string)

  /** What `GetRepositoryContents` says about one file: its encoded content (decoding may fail),
      whether its type is "file", and its repository path. */
  datatype FileMeta = FileMeta(content: Result<string>, isFile: bool, path: string)

  /** The outcome of one `GetRepositoryContents` call: an error, file metadata, or the paths of a directory's entries. */
  datatype Contents = FetchErr(err: Error) | File(meta: FileMeta) | DirListing(entries: seq<string>)

  /** One call of `GetRepositoryContents`, as the remote sees it. */
  datatype Request = Request(owner: string, repository: string, path: string, options: ListOptions)

  /** The remote repository host. `rank` is a measure on paths that a directory's entries lie below
      (the repository is a finite tree); the client never computes it. */
  datatype Remote = Remote(
    parseGetOptions: string -> Result<ListOptions>,
    contents: (string, string, string, ListOptions) -> Contents,
    rank: string -> nat)

  /** The entries the remote lists at a path, or none when the path is not a directory. */
  function Listing(r: Remote, owner: string, repository: string, path: string, opt: ListOptions): seq<string>
  {
    match r.contents(owner, repository, path, opt)
    case DirListing(entries) => entries
    case _ => []
  }

  /** Every listed entry ranks strictly below the directory that lists it. */
  ghost predicate WellRanked(r: Remote)
  {
    forall owner, repository, path, opt, i ::
      0 <= i < |Listing(r, owner, repository, path, opt)| ==>
        r.rank(Listing(r, owner, repository, path, opt)[i]) < r.rank(path)
  }

  class GitClient {
    const remote: Remote
    /** Every `GetRepositoryContents` call made so far, oldest first. */
    ghost var requests: seq<Request>

    constructor (remote: Remote)
      ensures this.remote == remote && requests == []
    {
      this.remote := remote;
      requests := [];
    }

    function ParseGetOptions(getOptions: string): Result<ListOptions>
    {
      remote.parseGetOptions(getOptions)
    }

    method GetRepositoryContents(owner: string, repository: string, path: string, opt: ListOptions) returns (c: Contents)
      modifies this
      ensures c == remote.contents(owner, repository, path, opt)
      ensures requests == old(requests) + [Request(owner, repository, path, opt)]
    {
      c := remote.contents(owner, repository, path, opt);
      requests := requests + [Request(owner, repository, path, opt)];
    }
  }

  /** Whether a fetch returned file metadata whose type is "file"; a directory listing has none. */
  predicate IsFileContentType(c: Contents)
  {
    c.File? && c.meta.isFile
  }
}
