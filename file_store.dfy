/**
 * FileStore (src/storage/file-store.ts): JSON files under a base directory, written
 * atomically by writing a sibling temporary file and renaming it over the target.
 *
 * The file system is the store's `files` map from absolute path to content. A write's
 * I/O failures are an explicit `WriteFault` parameter naming the step that fails, and
 * a directory listing is the answer readdir gave, also a parameter.
 */
module Storage {
  import opened Util
  import opened JsonModel

  /** path.resolve for a base directory that is already absolute and normalised. */
  function Resolve(baseDir: string, filePath: string): (r: string)
    ensures |r| >= |filePath|
  {
    if filePath != [] && filePath[0] == '/' then filePath else baseDir + "/" + filePath
  }

  /** The resolved path ends with the relative path given. */
  lemma ResolveKeepsPath(baseDir: string, filePath: string)
    ensures EndsWith(Resolve(baseDir, filePath), filePath)
  {
    var r := Resolve(baseDir, filePath);
    forall i | 0 <= i < |filePath|
      ensures r[|r| - |filePath| + i] == filePath[i]
    {
    }
  }

  /** The temporary sibling a write goes through: `<fullPath>.tmp.<pid>`. */
  function TempOf(fullPath: string, pid: nat): (r: string)
    ensures |r| > |fullPath|
    ensures IsDigit(r[|r| - 1])
  {
    fullPath + ".tmp." + NatToString(pid)
  }

  /** The temporary file's name extends the full path. */
  lemma TempOfExtends(fullPath: string, pid: nat)
    ensures StartsWith(TempOf(fullPath, pid), fullPath)
  {
  }

  /** A temporary file never has the name of a `.json` file. */
  lemma TempIsNotJson(fullPath: string, pid: nat, other: string)
    requires EndsWith(other, ".json")
    ensures TempOf(fullPath, pid) != other
  {
    assert other[|other| - 1] == 'n' by {
      assert other[|other| - 5..] == ".json";
    }
  }

  /** The step of writeJson that fails, if any, with the error it throws. */
  datatype WriteFault =
    | NoFault
    | MkdirFails(reason: string)
    | WriteFails(partial: Option<string>, reason: string)
    | RenameFails(reason: string)

  datatype StoreError =
    | NotFound(path: string)
    | ReadFailed(path: string, reason: string)

  /** The message of the Error that readJson throws. */
  function ErrorMessage(e: StoreError): (m: string)
    ensures e.NotFound? ==> StartsWith(m, "File not found: ") && EndsWith(m, e.path)
    ensures e.ReadFailed? ==> StartsWith(m, "Failed to read JSON from " + e.path + ": ")
  {
    match e
    case NotFound(p) => "File not found: " + p
    case ReadFailed(p, reason) => "Failed to read JSON from " + p + ": " + reason
  }

  /** The files after `content` was renamed into `fullPath` from `tempPath`. */
  function Committed(files: map<string, string>, fullPath: string, tempPath: string, content: string)
    : (r: map<string, string>)
    requires fullPath != tempPath
    ensures r.Keys == (files.Keys - {tempPath}) + {fullPath}
    ensures r[fullPath] == content
    ensures forall p :: p in files && p != fullPath && p != tempPath ==> r[p] == files[p]
  {
    (files - {tempPath})[fullPath := content]
  }

  /** What readJson finds at `fullPath`. */
  function ReadFrom(files: map<string, string>, fullPath: string, codec: Codec): Result<Json, StoreError>
  {
    if fullPath !in files then Err(NotFound(fullPath))
    else
      match codec.parse(files[fullPath])
      case Ok(v) => Ok(v)
      case Err(reason) => Err(ReadFailed(fullPath, reason))
  }

  /** A committed write is read back as the value written, and the other files are unchanged. */
  lemma ReadAfterCommit(files: map<string, string>, fullPath: string, tempPath: string, codec: Codec, data: Json)
    requires fullPath != tempPath
    requires RoundTripsOn(codec, data)
    ensures ReadFrom(Committed(files, fullPath, tempPath, codec.stringify(data)), fullPath, codec) == Ok(data)
    ensures forall p :: p != fullPath && p != tempPath ==>
      ReadFrom(Committed(files, fullPath, tempPath, codec.stringify(data)), p, codec) == ReadFrom(files, p, codec)
  {
  }

  /** The names in `names` that end with `extension`, in their order. */
  function FilterSuffix(names: seq<string>, extension: string): (r: seq<string>)
    ensures |r| <= |names|
    ensures forall n :: n in r <==> n in names && EndsWith(n, extension)
    ensures (forall i :: 0 <= i < |names| ==> EndsWith(names[i], extension)) ==> r == names
  {
    if names == [] then []
    else if EndsWith(names[0], extension) then [names[0]] + FilterSuffix(names[1..], extension)
    else FilterSuffix(names[1..], extension)
  }

  /** One name is kept exactly when it ends with the extension. */
  lemma FilterSuffixSingle(name: string, extension: string)
    ensures FilterSuffix([name], extension) == if EndsWith(name, extension) then [name] else []
  {
    assert [name][1..] == [];
  }

  /** Filtering distributes over concatenation, so the kept names keep their order. */
  lemma {:induction false} FilterSuffixAppend(a: seq<string>, b: seq<string>, extension: string)
    ensures FilterSuffix(a + b, extension) == FilterSuffix(a, extension) + FilterSuffix(b, extension)
  {
    if a != [] {
      assert (a + b)[0] == a[0] && (a + b)[1..] == a[1..] + b;
      FilterSuffixAppend(a[1..], b, extension);
    } else {
      assert a + b == b;
    }
  }

  /** What fs.readdir answered for a directory. */
  datatype Listing = Listed(names: seq<string>) | NoSuchDirectory | ListFailed(reason: string)

  class FileStore {
    const baseDir: string
    /** process.pid, which names the temporary files. */
    const pid: nat
    const codec: Codec
    var files: map<string, string>

    /**
     * `new FileStore(baseDir)`: the store keeps its base directory. The process id, the JSON
     * codec and the file system's contents, which the source takes from its environment,
     * are passed in.
     */
    constructor (baseDir: string, pid: nat, codec: Codec, files: map<string, string>)
      ensures this.baseDir == baseDir && this.pid == pid && this.codec == codec
      ensures this.files == files
    {
      this.baseDir := baseDir;
      this.pid := pid;
      this.codec := codec;
      this.files := files;
    }

    function FullPath(filePath: string): string {
      Resolve(baseDir, filePath)
    }

    function TempPath(filePath: string): (r: string)
      ensures r != FullPath(filePath)
    {
      TempOf(FullPath(filePath), pid)
    }

    /** The files after a successful writeJson of `content` to `filePath`. */
    function AfterWrite(before: map<string, string>, filePath: string, content: string): map<string, string>
    {
      Committed(before, FullPath(filePath), TempPath(filePath), content)
    }

    /**
     * writeJson: create the parent directory, write the serialised value to the temporary
     * sibling, rename it over the target. On any failure the temporary file is removed
     * and the target is left as it was; the failure's error is rethrown.
     */
    method WriteJson(filePath: string, data: Json, fault: WriteFault) returns (r: Outcome<string>)
      modifies this
      ensures fault.NoFault? <==> r.Pass?
      ensures r.Fail? ==> r.error == fault.reason
      ensures r.Pass? ==> files == AfterWrite(old(files), filePath, codec.stringify(data))
      ensures r.Fail? ==> files == old(files) - {TempPath(filePath)}
    {
      var fullPath := FullPath(filePath);
      var tempPath := TempPath(filePath);
      if fault.MkdirFails? {
        files := files - {tempPath};
        return Fail(fault.reason);
      }
      var json := codec.stringify(data);
      if fault.WriteFails? {
        if fault.partial.Some? {
          files := files[tempPath := fault.partial.value];
        }
        files := files - {tempPath};
        return Fail(fault.reason);
      }
      files := files[tempPath := json];
      if fault.RenameFails? {
        files := files - {tempPath};
        return Fail(fault.reason);
      }
      files := (files - {tempPath})[fullPath := files[tempPath]];
      return Pass;
    }

    /** readJson: a missing file and an unparsable one are told apart. */
    function ReadJson(filePath: string): (r: Result<Json, StoreError>)
      reads this
      ensures r.Err? && r.error.NotFound? <==> FullPath(filePath) !in files
      ensures r.Err? ==> r.error.path == FullPath(filePath)
      ensures r.Ok? ==> codec.parse(files[FullPath(filePath)]) == Ok(r.value)
    {
      ReadFrom(files, FullPath(filePath), codec)
    }

    /** exists: whether the file is there. */
    function Exists(filePath: string): (b: bool)
      reads this
      ensures b <==> !(ReadJson(filePath).Err? && ReadJson(filePath).error.NotFound?)
    {
      FullPath(filePath) in files
    }

    /**
     * listFiles: the directory's entries, only those ending with `extension` when one
     * is given and not empty; a missing directory lists as empty, other errors propagate.
     */
    function ListFiles(dirPath: string, extension: Option<string>, listing: Listing): (r: Result<seq<string>, string>)
      ensures listing.NoSuchDirectory? ==> r == Ok([])
      ensures listing.ListFailed? ==> r == Err(listing.reason)
      ensures listing.Listed? && (extension.None? || extension.value == "") ==> r == Ok(listing.names)
      ensures listing.Listed? && extension.Some? ==>
        r.Ok? && forall n :: n in r.value <==> n in listing.names && EndsWith(n, extension.value)
    {
      match listing
      case NoSuchDirectory => Ok([])
      case ListFailed(reason) => Err(reason)
      case Listed(names) =>
        if extension.Some? && extension.value != "" then Ok(FilterSuffix(names, extension.value))
        else Ok(names)
    }
  }
}
