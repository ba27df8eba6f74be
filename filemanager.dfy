/** The destination filesystem, reduced to the log of the files saved to it. */
module FileManager {
  import opened Wrappers

  /** One saved file: the destination directory, the repository path and the content, as passed to `SaveFileContent`. */
  datatype Write = Write(dir: string, relPath: string, content: string)

  class FileSystem {
    /** The I/O error, if any, that saving a path under a directory meets. */
    const faults: (string, string) -> Option<Error>
    /** Every successful save, oldest first. */
    var written: seq<Write>

    constructor (faults: (string, string) -> Option<Error>)
      ensures this.faults == faults && written == []
    {
      this.faults := faults;
      written := [];
    }
  }

  /** Saves `content` for `resourcePath` under `destinationDir`, or fails with no write. */
  method SaveFileContent(fs: FileSystem, destinationDir: string, content: string, resourcePath: string)
    returns (err: Option<Error>)
    modifies fs
    ensures err == fs.faults(destinationDir, resourcePath)
    ensures fs.written == if err.None? then old(fs.written) + [Write(destinationDir, resourcePath, content)]
                          else old(fs.written)
  {
    err := fs.faults(destinationDir, resourcePath);
    if err.None? {
      fs.written := fs.written + [Write(destinationDir, resourcePath, content)];
    }
  }
}
