# Git remote-resource resolver

A model of the git resource resolver of the SSM agent's execute-command plugin
(`agent/plugins/executecommand/gitresource/gitresource.go`). The resolver takes a
location (owner, repository, path, listing options, token reference) and:

- checks that owner, repository and path are given, reporting the first missing one (`ValidateLocationInfo`);
- downloads the path from the repository host (`Download`). With `entireDir` it downloads the directory
  that contains the path instead, walking its listing depth first and stopping at the first failure;
- describes what was downloaded (`PopulateResourceInfo`): the starter file, its extension, the local
  path, and whether it is a script or a document.

Modules:

- `Wrappers` (`wrappers.dfy`): `Option`, Go's `error` as `Error(message)`, and a `(value, error)` result.
- `FilePath` (`filepath.dfy`): Go's `filepath.Dir`, `Base` and `Ext` on '/'-separated strings, plus the
  path join used for the local destination path.
- `GitHubClient` (`githubclient.dfy`): the repository host as an oracle (`Remote`) and the client class whose
  `GetRepositoryContents` consults it. The class keeps a ghost log of the requests it has served.
- `FileManager` (`filemanager.dfy`): the destination filesystem. It is a class holding the log of saved files,
  which `SaveFileContent` appends to, and a fault oracle saying which saves fail.
- `GitResource` (`gitresource.dfy`): the location, the validator, the classifier and the downloader.
  The downloader is given twice. `Run`/`Handle`/`Entries` are functions that yield the returned error, the
  requests made and the files saved. `GitResource.Download`/`DownloadInfo`/`HandleContents`/`DownloadEntries` are methods
  on the class that update the client and the filesystem in place and are proved equal to those functions. The Go
  method `download` is one body. Here it is split in three: parsing and fetching (`DownloadInfo`), acting on
  the fetched contents (`HandleContents`), and the loop over a listing (`DownloadEntries`).
- `GitResourceProperties` (`gitresource_properties.dfy`): the lemmas.

The Go methods `ValidateLocationInfo` and `PopulateResourceInfo` read only the receiver's `Info`. They are
modelled as functions that take that `GitInfo` as an argument.

Termination of the recursive download rests on an assumption. The repository is taken to be a finite tree: `Remote.rank`
is a measure on paths that every entry of a directory listing lies strictly below (`WellRanked`). The
client never computes it.

Two behaviours of the code are worth stating on their own:

- A decode error (gitresource.go:126-128) or a save error (gitresource.go:130-132) is returned unwrapped.
  The code adds no path to either error; only the save's log line (gitresource.go:131) names the path.
- When `entireDir` is off, every successful fetch that is not a file of kind "file" gives "Path specified is a
  directory" (gitresource.go:134-136). This includes file metadata of another kind, not only a directory listing.

## Model

| member | source | states |
|---|---|---|
| `FilePath.Dir` | agent/plugins/executecommand/gitresource/gitresource.go:85 | the directory of a path is never empty, is "." for a path without a separator, and ends in a separator only when it is the root "/" |
| `FilePath.DirOfTrailingSeparator` | agent/plugins/executecommand/gitresource/gitresource.go:85 | a path written with one trailing separator has the path itself as its directory |
| `FilePath.DirOfRootedName` | agent/plugins/executecommand/gitresource/gitresource.go:85 | a name directly under the root has directory "/" |
| `FilePath.Base` | agent/plugins/executecommand/gitresource/gitresource.go:152 | the base name is non-empty and is "/" or free of separators; it is "." for the empty path, "/" for a path of separators only, and otherwise the last element once trailing separators are removed |
| `FilePath.BaseOfTrailingSeparator` | agent/plugins/executecommand/gitresource/gitresource.go:152 | a trailing separator does not change the base name of a path that has an element |
| `FilePath.Ext` | agent/plugins/executecommand/gitresource/gitresource.go:154 | the extension is empty exactly when the last element has no '.'; otherwise it starts with '.', ends the last element and has no further '.' |
| `FilePath.LastSegment` | agent/plugins/executecommand/gitresource/gitresource.go:152 | the last element is a separator-free suffix reaching back to a separator or to the start |
| `FilePath.LastSegmentUnique` | agent/plugins/executecommand/gitresource/gitresource.go:152 | any separator-free suffix that reaches back to a separator or to the start is the last element |
| `FilePath.SeparatorFreeSuffix` | agent/plugins/executecommand/gitresource/gitresource.go:152 | a separator-free string ends the path exactly when it ends the path's last element |
| `FilePath.DirAndBaseOfJoin` | agent/plugins/executecommand/gitresource/gitresource.go:85 | splitting `dir/name` gives `dir` back from `Dir` and `name` from `Base` |
| `FilePath.DirAndBaseOfName` | agent/plugins/executecommand/gitresource/gitresource.go:85 | a one-element path has directory "." and is its own base name |
| `FilePath.JoinPath` | agent/plugins/executecommand/gitresource/gitresource.go:153 | the local path starts with the destination and ends with the repository path, with one separator between them when both are given |
| `FilePath.ExtOfDottedSuffix` | agent/plugins/executecommand/gitresource/gitresource.go:154 | `Ext` yields a dotted extension with no further '.' exactly when the last element ends with it |
| `GitHubClient.GitClient.GetRepositoryContents` | agent/plugins/executecommand/gitresource/gitresource.go:97 | returns what the host holds at (owner, repository, path, options) and logs that one request |
| `FileManager.SaveFileContent` | agent/plugins/executecommand/gitresource/gitresource.go:130 | returns the save's fault; it appends exactly one write of (directory, path, content) when there is none and nothing otherwise |
| `GitResource.ValidateLocationInfo` | agent/plugins/executecommand/gitresource/gitresource.go:172-187 | valid exactly when owner, repository and path are all non-empty; an error is returned exactly when invalid |
| `GitResource.FirstMissing` | agent/plugins/executecommand/gitresource/gitresource.go:174-184 | finds the first field with an empty value, in order; none exactly when all are filled |
| `GitResource.EffectiveDir` | agent/plugins/executecommand/gitresource/gitresource.go:104-106 | an empty destination becomes the download root; a given one is kept; the result is never empty |
| `GitResource.PopulateResourceInfo` | agent/plugins/executecommand/gitresource/gitresource.go:145-169 | starter file is the path's base name and the extension is the starter file's; local path is under the effective destination; `entireDir` always gives Script and EntireDir; otherwise Document exactly for ".json" or ".yaml" and EntireDir false |
| `GitResource.Run` | agent/plugins/executecommand/gitresource/gitresource.go:91-142 | an options-parse error is returned unchanged with no fetch and no write; otherwise the first fetch is the location's own path, and a fetch error is returned unchanged with no write |
| `GitResource.Handle` | agent/plugins/executecommand/gitresource/gitresource.go:98-139 | a fetch error is returned unchanged with no further fetch or write; without `entireDir`, anything but a file of kind "file" is an error with no further fetch or write |
| `GitResource.ChildInfo` | agent/plugins/executecommand/gitresource/gitresource.go:113-118 | an entry's location is the listing's with the entry's path and no token reference |
| `GitResource.SaveFile` | agent/plugins/executecommand/gitresource/gitresource.go:124-133 | no fetch and at most one write; success exactly when the content decodes and the save has no fault, and exactly when the decoded content is written at (destination, file path); otherwise the decode or save error unchanged |
| `GitResource.Entries` | agent/plugins/executecommand/gitresource/gitresource.go:110-123 | an empty listing succeeds with nothing fetched or saved; otherwise the first entry's path is fetched first, with the listing's owner, repository and options, and an options-parse error stops the listing before any fetch |
| `GitResource.GitResource.constructor` | agent/plugins/executecommand/gitresource/gitresource.go:65-68 | the resource holds the given client and location |
| `GitResource.GitResource.Download` | agent/plugins/executecommand/gitresource/gitresource.go:82-88 | behaves as `Run` on the location, with the path replaced by its directory when `entireDir` is set: same error, same requests appended, same files saved |
| `GitResource.GitResource.DownloadInfo` | agent/plugins/executecommand/gitresource/gitresource.go:91-142 | returns `Run`'s error; appends `Run`'s requests to the client's log and `Run`'s writes to the filesystem's log |
| `GitResource.GitResource.HandleContents` | agent/plugins/executecommand/gitresource/gitresource.go:98-139 | returns `Handle`'s error and appends exactly its requests and writes |
| `GitResource.GitResource.DownloadEntries` | agent/plugins/executecommand/gitresource/gitresource.go:110-123 | the loop over a listing: returns `Entries`' error and appends exactly its requests and writes |
| `GitResourceProperties.ValidateReportsFirstMissing` | agent/plugins/executecommand/gitresource/gitresource.go:172-187 | validation fails exactly when some required field is empty; the error names the first empty one in the order owner, repository, path |
| `GitResourceProperties.DocumentIffDocumentSuffix` | agent/plugins/executecommand/gitresource/gitresource.go:152-165 | for a single file whose path has no trailing separator, the resource is a Document exactly when the path ends in ".json" or ".yaml" |
| `GitResourceProperties.SingleFetchOutcome` | agent/plugins/executecommand/gitresource/gitresource.go:110-139 | a file of kind "file" gives one fetch and exactly one write of its decoded content at (destination, its path), none on a decode or save error; any other non-listing, or a listing without `entireDir`, gives the fixed errors and no write; a listing with `entireDir` is one fetch of the path followed by the downloads of its entries |
| `GitResourceProperties.SingleFileModeFetchesOnce` | agent/plugins/executecommand/gitresource/gitresource.go:110-139 | without `entireDir` there is at most one fetch and at most one write |
| `GitResourceProperties.EntriesFailFast` | agent/plugins/executecommand/gitresource/gitresource.go:110-123 | entries are downloaded in listing order; success exactly when every entry succeeds, with requests and writes concatenated; otherwise the first failing entry's error is returned and no later entry is fetched |
| `GitResourceProperties.ChildrenInheritDescriptor` | agent/plugins/executecommand/gitresource/gitresource.go:113-119 | each entry's download first fetches the entry's path with the listing's owner, repository and options |
| `GitResourceProperties.RunSavesOnlyFetchedFiles` | agent/plugins/executecommand/gitresource/gitresource.go:91-142 | every saved file goes to the effective destination and holds the decoded content of a file-kind fetch of the same download, at that file's path |
| `GitResourceProperties.EntriesSaveOnlyFetchedFiles` | agent/plugins/executecommand/gitresource/gitresource.go:110-123 | the same, for the downloads of a listing's entries |
| `GitResourceProperties.RunSavesEveryFetchedFile` | agent/plugins/executecommand/gitresource/gitresource.go:91-142 | a successful download has saved every file-kind file it fetched, with its decoded content |
| `GitResourceProperties.EntriesSaveEveryFetchedFile` | agent/plugins/executecommand/gitresource/gitresource.go:110-123 | the same, for the downloads of a listing's entries |
| `GitResourceProperties.RunScriptExample` | agent/plugins/executecommand/gitresource/gitresource.go:91-169 | "scripts/run.sh" served as "echo hi", with no destination: one fetch; one write under the download root; starter file "run.sh", extension ".sh", Script, not EntireDir |

## Left out

- `parseLocationInfo` and `NewGitResource` (gitresource.go:51-79): JSON unmarshalling and OAuth client construction are foreign calls. The constructor of `GitResource` models only the struct it builds.
- The hosting client's internals (`ParseGetOptions`, `GetRepositoryContents`, `IsFileContentType`, `GetContent`) are network code. They are reduced to the `Remote` oracle. A directory listing is taken to carry no file metadata, so `IsFileContentType` is false for it.
- `filemanager.SaveFileContent` internals: directory creation, the file's final location on disk, and partial writes before an I/O error. The model records the call's arguments on success and nothing on failure.
- `FilePath.JoinPath`: `fileutil.BuildPath` is not part of this model; it is taken as a join with one separator that skips empty parts, without further normalisation.
- `FilePath.Dir`: of `filepath.Clean` only the removal of trailing separators is modelled. "." and ".." elements, and repeated separators between earlier elements of the directory, are not normalised.
- `DownloadRoot` is a stand-in value; the configured per-platform root is not part of this model. The proofs use only that it is non-empty.
- The request log of `GitClient` is ghost instrumentation. The Go client keeps no such log.
- Logging calls have no effect on behaviour and are left out.
- `GitResource.Run`: termination assumes `WellRanked`. A host whose listings contain a cycle would make the Go code recurse without end, and that case is not modelled.
- `agent/plugins/configurepackage/birdwatcher/birdwatcher_dep.go` is dependency-injection boilerplate with no logic of its own. It is not part of this model.
