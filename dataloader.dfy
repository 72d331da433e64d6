/**
 * `DataLoader`: JSON or YAML text to a value, and files loaded through a
 * per-filename cache so that each file is read at most once.  The parsers and
 * the file system are parameters: `json.loads` and `yaml.load_all` as
 * functions that give None when they raise, the files as a FileSystem object
 * that records which paths were read.
 */
module DataLoading {
  import opened Wrappers
  import opened JsonValues

  /** `json.loads`, and the documents of `yaml.load_all`; None when the parser raises. */
  datatype Parsers = Parsers(json: string -> Option<Json>, yaml: string -> Option<seq<Json>>)

  /** The documents that are true under Python's truth test, in order. */
  function TruthyDocs(docs: seq<Json>): (r: seq<Json>)
    ensures forall d :: d in r <==> d in docs && Truthy(d)
    ensures |r| <= |docs|
    decreases |docs|
  {
    if docs == [] then []
    else
      var last := docs[|docs| - 1];
      TruthyDocs(docs[..|docs| - 1]) + (if Truthy(last) then [last] else [])
  }

  /**
   * `load(data)`: None (here JNull) for empty data; a JSON dictionary wrapped in
   * a one-element list and any other JSON value as it is; failing JSON, the list
   * of true YAML documents; failing both, None.
   */
  function Load(p: Parsers, data: string): (r: Json)
    ensures data == "" ==> r == JNull
    ensures !r.JObject?
  {
    if data == "" then JNull
    else
      match p.json(data)
      case Some(v) => if v.JObject? then JArray([v]) else v
      case None =>
        match p.yaml(data)
        case Some(docs) => JArray(TruthyDocs(docs))
        case None => JNull
  }

  /** The files: which paths are existing regular files, what they hold, and which were read. */
  class FileSystem {
    const isFile: string -> bool
    const content: string -> string
    var readPaths: seq<string>

    constructor(isFile: string -> bool, content: string -> string)
      ensures this.isFile == isFile && this.content == content && readPaths == []
    {
      this.isFile := isFile;
      this.content := content;
      readPaths := [];
    }

    method Read(path: string) returns (text: string)
      modifies this
      ensures readPaths == old(readPaths) + [path] && text == content(path)
    {
      readPaths := readPaths + [path];
      text := content(path);
    }
  }

  class DataLoader {
    const parsers: Parsers
    /** The value loaded from each file already read. */
    var cache: map<string, Json>

    constructor(parsers: Parsers)
      ensures this.parsers == parsers && cache == map[]
    {
      this.parsers := parsers;
      cache := map[];
    }

    /**
     * `load_from_file`: IOError unless the path is an existing regular file; the
     * cached value when there is one, without reading; otherwise the file is read
     * once, loaded, and the value cached.  Values are immutable here, so the
     * deep copy returned is the cached value itself.
     */
    method LoadFromFile(fs: FileSystem, filename: string) returns (r: Result<Json, Exception>)
      modifies this, fs
      ensures !fs.isFile(filename) ==>
        r == Err(IOError("The file does not exist, " + filename)) && cache == old(cache) && fs.readPaths == old(fs.readPaths)
      ensures fs.isFile(filename) && filename in old(cache) ==>
        r == Ok(old(cache)[filename]) && cache == old(cache) && fs.readPaths == old(fs.readPaths)
      ensures fs.isFile(filename) && filename !in old(cache) ==>
        r == Ok(Load(parsers, fs.content(filename))) && cache == old(cache)[filename := r.value]
        && fs.readPaths == old(fs.readPaths) + [filename]
      ensures r.Ok? ==> filename in cache && cache[filename] == r.value
    {
      if !fs.isFile(filename) {
        return Err(IOError("The file does not exist, " + filename));
      }
      var parsed;
      if filename in cache {
        parsed := cache[filename];
      } else {
        var data := fs.Read(filename);
        parsed := Load(parsers, data);
        cache := cache[filename := parsed];
      }
      r := Ok(parsed);
    }
  }

  /**
   * Loading the same file twice reads it at most once, both calls return the same
   * value, and no other cache entry changes.
   */
  method LoadTwice(loader: DataLoader, fs: FileSystem, filename: string)
    returns (first: Result<Json, Exception>, second: Result<Json, Exception>)
    modifies loader, fs
    ensures first == second
    ensures |fs.readPaths| <= |old(fs.readPaths)| + 1
    ensures forall f :: f in old(loader.cache) && f != filename ==> f in loader.cache && loader.cache[f] == old(loader.cache)[f]
  {
    first := loader.LoadFromFile(fs, filename);
    second := loader.LoadFromFile(fs, filename);
  }

  // ---------------------------------------------------------------- format selection

  /** Empty data loads as None. */
  lemma LoadEmpty(p: Parsers)
    ensures Load(p, "") == JNull
  {
  }

  /** A JSON dictionary becomes a one-element list; any other JSON value is returned as it is. */
  lemma LoadJson(p: Parsers, data: string)
    requires data != "" && p.json(data).Some?
    ensures p.json(data).value.JObject? ==> Load(p, data) == JArray([p.json(data).value])
    ensures !p.json(data).value.JObject? ==> Load(p, data) == p.json(data).value
    ensures Load(p, data).JObject? == false
  {
  }

  /**
   * Text that is not JSON but is YAML loads as the list of its true documents:
   * every document that is true is in it, and nothing else.  Text that is
   * neither loads as None.
   */
  lemma LoadYaml(p: Parsers, data: string)
    requires data != "" && p.json(data).None?
    ensures p.yaml(data).Some? ==>
      Load(p, data).JArray? && |Load(p, data).items| <= |p.yaml(data).value|
      && forall d :: d in Load(p, data).items <==> d in p.yaml(data).value && Truthy(d)
    ensures p.yaml(data).None? ==> Load(p, data) == JNull
  {
  }

  /** Dropping the false documents a second time changes nothing. */
  lemma {:induction false} TruthyDocsIdempotent(docs: seq<Json>)
    ensures TruthyDocs(TruthyDocs(docs)) == TruthyDocs(docs)
    decreases |docs|
  {
    if docs != [] {
      var init, last := docs[..|docs| - 1], docs[|docs| - 1];
      TruthyDocsIdempotent(init);
      if Truthy(last) {
        assert TruthyDocs(docs) == TruthyDocs(init) + [last];
        TruthyDocsSnoc(TruthyDocs(init), last);
      } else {
        assert TruthyDocs(docs) == TruthyDocs(init);
      }
    }
  }

  lemma TruthyDocsSnoc(docs: seq<Json>, d: Json)
    ensures TruthyDocs(docs + [d]) == TruthyDocs(docs) + (if Truthy(d) then [d] else [])
  {
    assert (docs + [d])[..|docs|] == docs;
  }
}
