/**
 * The spec fetcher's two operations, `list_specs` and `fetch_spec`, over an
 * abstract `World`.  Each operation returns the text the tool returns and the
 * trace of sources it contacted.  The methods follow the source step by step;
 * the functions beside them (`LoadSpec`, `ListSpecsSpec`, `FetchSpecSpec`) are
 * their reference definitions, about which the properties are proved.
 */
module Server {
  import opened Env
  import opened Text
  import opened Paths

  const REPO_BASE_URL := "https://raw.githubusercontent.com/Azure/PMAgent-onboarding/main"
  const INDEX_URL := REPO_BASE_URL + "/spec/docs/index.yml"
  const HEADER := "Available Specifications:\n"
  const NO_SPECS := "No specifications found (checked local and remote)."
  const NO_INDEX := "Error: Could not load index file (local or remote)."

  /** `DOCS_DIR`, for the directory holding the server script. */
  function DocsDir(baseDir: string): string { Join(baseDir, "../docs") }

  /** `INDEX_FILE`. */
  function IndexFile(baseDir: string): string { Join(DocsDir(baseDir), "index.yml") }

  /** The public URL of a normalised document reference. */
  function DocUrl(normalized: string): string { REPO_BASE_URL + "/spec/docs/" + normalized }

  function ReadIndexError(msg: string): string { "Error reading index: " + msg }
  function FetchError(msg: string): string { "Error fetching spec: " + msg }
  function NotInIndex(name: string): string { "Error: Spec '" + name + "' not found in index." }
  function NotFound404(normalized: string, url: string): string
  {
    "Error: Spec file '" + normalized + "' not found locally or in public repository (404).\nURL: " + url
  }
  /** The message for any status other than 200 and 404: the text
      `"Error: Failed to fetch spec. Status code: "` followed by the code. */
  function BadStatus(code: nat): string { "Error: Failed to fetch spec." + " Status code: " + NatToString(code) }

  /** What an operation returns, with the sources it contacted in order. */
  datatype Run = Run(out: string, trace: seq<Access>)

  // ---------------------------------------------------------------- index loading

  /** The value `data` holds after the local attempt: the parse of a readable
      local index, `None` when the file is absent, unreadable or unparsable. */
  function LocalAttempt(w: World, indexFile: string): Doc
  {
    if indexFile !in w.files then Null
    else match w.files[indexFile]
      case Unreadable => Null
      case Readable(text) =>
        match w.yaml(text)
        case Parsed(d) => d
        case ParseError => Null
  }

  /** The index served remotely, when the GET answers 200 with a parsable body. */
  function RemoteIndex(w: World): Option<Doc>
  {
    match w.indexGet(INDEX_URL)
    case NetError(_) => None
    case Reply(code, body) =>
      if code != 200 then None
      else match w.yaml(body)
        case Parsed(d) => Some(d)
        case ParseError => None
  }

  datatype Loaded = Loaded(data: Doc, trace: seq<Access>)

  /** Local index first; the remote one only when the local value is falsy; no merging. */
  function LoadSpec(w: World, indexFile: string): Loaded
  {
    var local := LocalAttempt(w, indexFile);
    var touched := if indexFile in w.files then [Open(indexFile)] else [];
    if Truthy(local) then Loaded(local, touched)
    else
      var data := match RemoteIndex(w) case Some(d) => d case None => local;
      Loaded(data, touched + [Get(INDEX_URL)])
  }

  /** The index-loading block shared by both operations. */
  method LoadIndex(w: World, indexFile: string) returns (data: Doc, trace: seq<Access>)
    ensures Loaded(data, trace) == LoadSpec(w, indexFile)
  {
    trace := [];
    if indexFile in w.files {
      trace := trace + [Open(indexFile)];
      match w.files[indexFile]
      case Unreadable =>
        data := Null;
      case Readable(text) =>
        match w.yaml(text)
        case Parsed(d) => data := d;
        case ParseError => data := Null;
    } else {
      data := Null;
    }
    if !Truthy(data) {
      trace := trace + [Get(INDEX_URL)];
      var response := w.indexGet(INDEX_URL);
      if response.Reply? && response.status == 200 {
        match w.yaml(response.body)
        case Parsed(d) => data := d;
        case ParseError =>
      }
    }
  }

  // ---------------------------------------------------------------- list_specs

  predicate AllMappings(items: seq<Item>)
  {
    forall i :: 0 <= i < |items| ==> items[i].Mapping?
  }

  /** The message of the first element that is not a mapping. */
  function FirstFault(items: seq<Item>): (r: Option<string>)
    ensures r.None? <==> AllMappings(items)
  {
    if items == [] then None
    else match items[0]
      case NonMapping(error) => Some(error)
      case Mapping(_) => FirstFault(items[1..])
  }

  /** One listing line without its newline. */
  function EntryText(e: Entry): string
  {
    "- " + Shown(e.name, "Unknown") + ": " + Shown(e.description, "No description")
  }

  /** The listing lines of the entries, in index order. */
  function Lines(items: seq<Item>): string
    requires AllMappings(items)
  {
    if items == [] then ""
    else EntryText(items[0].entry) + "\n" + Lines(items[1..])
  }

  /** The rendering loop over an index sequence: the header and one line per
      entry, or the message raised by the first element that is not a mapping. */
  function Rendered(items: seq<Item>): string
  {
    match FirstFault(items)
    case Some(error) => ReadIndexError(error)
    case None => HEADER + Lines(items)
  }

  /** What `list_specs` returns once the index value is known. */
  function Listing(data: Doc): string
  {
    match data
    case Null => NO_SPECS
    case NonSequence(truthy, iterError) => if truthy then ReadIndexError(iterError) else NO_SPECS
    case Items(items) => if items == [] then NO_SPECS else Rendered(items)
  }

  function ListSpecsSpec(w: World, baseDir: string): Run
  {
    var loaded := LoadSpec(w, IndexFile(baseDir));
    Run(Listing(loaded.data), loaded.trace)
  }

  lemma {:induction false} LinesSnoc(items: seq<Item>, e: Entry)
    requires AllMappings(items)
    ensures AllMappings(items + [Mapping(e)])
    ensures Lines(items + [Mapping(e)]) == Lines(items) + EntryText(e) + "\n"
  {
    var more := items + [Mapping(e)];
    if items != [] {
      assert more[0] == items[0] && more[1..] == items[1..] + [Mapping(e)];
      LinesSnoc(items[1..], e);
    }
  }

  /** One turn of the listing loop: the next element either is the first fault
      of the remaining ones, or adds its line to those already rendered. */
  lemma RenderStep(items: seq<Item>, i: nat)
    requires i < |items| && AllMappings(items[..i])
    ensures FirstFault(items[i..]) == if items[i].NonMapping? then Some(items[i].error) else FirstFault(items[i + 1..])
    ensures items[i].Mapping? ==>
      && AllMappings(items[..i + 1])
      && HEADER + Lines(items[..i + 1]) == (HEADER + Lines(items[..i])) + EntryText(items[i].entry) + "\n"
  {
    assert items[i..][0] == items[i] && items[i..][1..] == items[i + 1..];
    if items[i].Mapping? {
      LinesSnoc(items[..i], items[i].entry);
      assert items[..i + 1] == items[..i] + [items[i]];
    }
  }

  /** The `for item in data` loop of `list_specs`. */
  method RenderListing(items: seq<Item>) returns (out: string)
    ensures FirstFault(items).Some? ==> out == ReadIndexError(FirstFault(items).value)
    ensures FirstFault(items).None? ==> AllMappings(items) && out == HEADER + Lines(items)
  {
    var result := HEADER;
    var i := 0;
    while i < |items|
      invariant 0 <= i <= |items|
      invariant AllMappings(items[..i])
      invariant FirstFault(items) == FirstFault(items[i..])
      invariant result == HEADER + Lines(items[..i])
    {
      RenderStep(items, i);
      match items[i] {
        case NonMapping(error) =>
          return ReadIndexError(error);
        case Mapping(e) =>
          result := result + EntryText(e) + "\n";
      }
      i := i + 1;
    }
    assert items[..i] == items;
    out := result;
  }

  /** `list_specs`. */
  method ListSpecs(w: World, baseDir: string) returns (out: string, trace: seq<Access>)
    ensures Run(out, trace) == ListSpecsSpec(w, baseDir)
  {
    var data;
    data, trace := LoadIndex(w, IndexFile(baseDir));
    if !Truthy(data) {
      return NO_SPECS, trace;
    }
    match data {
      case NonSequence(_, iterError) =>
        out := ReadIndexError(iterError);
      case Items(items) =>
        out := RenderListing(items);
    }
  }

  // ---------------------------------------------------------------- fetch_spec

  /** The outcome of the lookup loop: the `file` of the first entry whose name
      is the request (`None` when there is none), or the message raised by an
      element reached before it that is not a mapping. */
  datatype Lookup = Fault(error: string) | Target(file: Option<Value>)

  predicate Named(item: Item, name: string)
  {
    item.Mapping? && item.entry.name == Some(Str(name))
  }

  function Resolve(items: seq<Item>, name: string): Lookup
  {
    if items == [] then Target(None)
    else match items[0]
      case NonMapping(error) => Fault(error)
      case Mapping(e) => if e.name == Some(Str(name)) then Target(e.file) else Resolve(items[1..], name)
  }

  /** `target_file` is truthy. */
  predicate Resolved(file: Option<Value>)
  {
    file.Some? && TruthyValue(file.value)
  }

  /** What the 200 / 404 / other dispatch on the document response returns. */
  function StatusMessage(code: nat, body: string, normalized: string, url: string): string
  {
    if code == 200 then body
    else if code == 404 then NotFound404(normalized, url)
    else BadStatus(code)
  }

  /** Fetching a normalised document reference: local copy first, then one GET. */
  function DocumentSpec(w: World, docsDir: string, normalized: string): Run
  {
    var local := Join(docsDir, normalized);
    var url := DocUrl(normalized);
    if local in w.files && w.files[local].Readable? then Run(w.files[local].text, [Open(local)])
    else
      var touched := if local in w.files then [Open(local)] else [];
      var out := match w.documentGet(url)
        case NetError(error) => FetchError(error)
        case Reply(code, body) => StatusMessage(code, body, normalized, url);
      Run(out, touched + [Get(url)])
  }

  /** What `fetch_spec(name)` returns once the index value is known. */
  function FetchFrom(w: World, baseDir: string, data: Doc, name: string): Run
  {
    match data
    case Null => Run(NO_INDEX, [])
    case NonSequence(truthy, iterError) => Run(if truthy then FetchError(iterError) else NO_INDEX, [])
    case Items(items) =>
      if items == [] then Run(NO_INDEX, [])
      else match Resolve(items, name)
        case Fault(error) => Run(FetchError(error), [])
        case Target(file) =>
          if !Resolved(file) then Run(NotInIndex(name), [])
          else match file.value
            case NonStr(_, _, pathError) => Run(FetchError(pathError), [])
            case Str(s) => DocumentSpec(w, DocsDir(baseDir), NormPath(s))
  }

  function FetchSpecSpec(w: World, baseDir: string, name: string): Run
  {
    var loaded := LoadSpec(w, IndexFile(baseDir));
    var rest := FetchFrom(w, baseDir, loaded.data, name);
    Run(rest.out, loaded.trace + rest.trace)
  }

  /** The lookup loop of `fetch_spec`, stopping at the first entry with the
      requested name. */
  method FindTarget(items: seq<Item>, name: string) returns (found: Lookup)
    ensures found == Resolve(items, name)
  {
    var targetFile: Option<Value> := None;
    var i := 0;
    while i < |items|
      invariant 0 <= i <= |items|
      invariant Resolve(items, name) == Resolve(items[i..], name)
    {
      assert items[i..][0] == items[i] && items[i..][1..] == items[i + 1..];
      match items[i] {
        case NonMapping(error) =>
          return Fault(error);
        case Mapping(e) =>
          if e.name == Some(Str(name)) {
            targetFile := e.file;
            break;
          }
      }
      i := i + 1;
    }
    found := Target(targetFile);
  }

  /** The local-then-remote document fetch of `fetch_spec`. */
  method FetchDocument(w: World, docsDir: string, normalized: string) returns (out: string, trace: seq<Access>)
    ensures Run(out, trace) == DocumentSpec(w, docsDir, normalized)
  {
    trace := [];
    var localFilePath := Join(docsDir, normalized);
    if localFilePath in w.files {
      trace := trace + [Open(localFilePath)];
      match w.files[localFilePath] {
        case Readable(text) =>
          return text, trace;
        case Unreadable =>
      }
    }

    var url := DocUrl(normalized);
    trace := trace + [Get(url)];
    var response := w.documentGet(url);
    match response {
      case NetError(error) =>
        out := FetchError(error);
      case Reply(code, body) =>
        if code == 200 {
          out := body;
        } else if code == 404 {
          out := NotFound404(normalized, url);
        } else {
          out := BadStatus(code);
        }
    }
  }

  /** `fetch_spec(name)`. */
  method FetchSpec(w: World, baseDir: string, name: string) returns (out: string, trace: seq<Access>)
    ensures Run(out, trace) == FetchSpecSpec(w, baseDir, name)
  {
    var data;
    data, trace := LoadIndex(w, IndexFile(baseDir));
    if !Truthy(data) {
      return NO_INDEX, trace;
    }
    var items;
    match data {
      case NonSequence(_, iterError) =>
        return FetchError(iterError), trace;
      case Items(xs) =>
        items := xs;
    }

    var found := FindTarget(items, name);
    var targetFile;
    match found {
      case Fault(error) =>
        return FetchError(error), trace;
      case Target(file) =>
        targetFile := file;
    }
    if !Resolved(targetFile) {
      return NotInIndex(name), trace;
    }
    var normalized;
    match targetFile.value {
      case NonStr(_, _, pathError) =>
        return FetchError(pathError), trace;
      case Str(s) =>
        normalized := NormPath(s);
    }

    var documentTrace;
    out, documentTrace := FetchDocument(w, DocsDir(baseDir), normalized);
    trace := trace + documentTrace;
  }
}
