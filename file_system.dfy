/** The local file system as the cache code sees it: a map from paths to file
    contents. Only the calls the modelled code makes are provided. */
module FileSystem {
  import opened Base

  class Disk {
    var files: map<Path, seq<byte>>

    constructor(files: map<Path, seq<byte>>)
      ensures this.files == files
    {
      this.files := files;
    }

    /** `os.remove`: a missing path raises OSError and changes nothing. */
    method Remove(path: Path) returns (r: Result<bool>)
      modifies this
      ensures path in old(files) <==> r.Ok?
      ensures r.Ok? ==> files == old(files) - {path} && r.value
      ensures r.Err? ==> files == old(files) && r.error == OSError("No such file or directory: " + path)
    {
      if path !in files {
        return Err(OSError("No such file or directory: " + path));
      }
      files := files - {path};
      return Ok(true);
    }

    /** `open(path, 'wb')`: the file exists afterwards and is empty. */
    method Truncate(path: Path)
      modifies this
      ensures files == old(files)[path := []]
    {
      files := files[path := []];
    }

    /** `write` on a file opened for writing: the bytes go at its end. */
    method Append(path: Path, data: seq<byte>)
      requires path in files
      modifies this
      ensures files == old(files)[path := old(files)[path] + data]
    {
      files := files[path := files[path] + data];
    }
  }
}
