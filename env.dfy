/**
 * The outside world of the spec fetcher, reduced to the outcomes the resolution
 * protocol reacts to: the local files, the HTTP GET of a URL, and what the YAML
 * parser makes of a text.  Exception messages (Python's `str(e)`) are opaque and
 * are carried by the input that raises them.
 */
module Env {

  datatype Option<+T> = None | Some(value: T)

  /** A scalar found under a key of an index entry. */
  datatype Value =
    | Str(s: string)
      /** Any other YAML value (number, boolean, null, list, ...): how an f-string
          renders it, whether Python finds it truthy, and the message of the
          TypeError raised when it is used as a file path. */
    | NonStr(shown: string, truthy: bool, pathError: string)

  /** An index entry: a YAML mapping; each key may be absent. */
  datatype Entry = Entry(name: Option<Value>, description: Option<Value>, file: Option<Value>)

  /** An element of the index sequence: a mapping, or anything else, which has no
      `.get` and raises (with the given message) as soon as it is inspected. */
  datatype Item = Mapping(entry: Entry) | NonMapping(error: string)

  /** What `yaml.safe_load` returns for an index document. */
  datatype Doc =
    | Null
    | Items(items: seq<Item>)
      /** A mapping, string, number, ...: iterating it (or inspecting its first
          element) raises with message `iterError`. */
    | NonSequence(truthy: bool, iterError: string)

  datatype Parse = Parsed(doc: Doc) | ParseError

  /** A path that exists on disk: reading it in text mode either succeeds or raises. */
  datatype FileState = Readable(text: string) | Unreadable

  /** The outcome of `requests.get(url)`. */
  datatype Response = NetError(error: string) | Reply(status: nat, body: string)

  /** `files` holds exactly the paths for which `os.path.exists` is true.  Each of
      the two GETs a call can make has its own answer: the index request
      (`indexGet`) and the document request (`documentGet`), so the two may
      differ even when they name the same URL. */
  datatype World = World(
    files: map<string, FileState>,
    indexGet: string -> Response,
    documentGet: string -> Response,
    yaml: string -> Parse)

  /** A contact with a source: opening a local path, or a GET of a URL. */
  datatype Access = Open(path: string) | Get(url: string)

  /** Python truthiness of a parsed index. */
  predicate Truthy(d: Doc)
  {
    match d
    case Null => false
    case Items(items) => items != []
    case NonSequence(t, _) => t
  }

  /** Python truthiness of an entry value. */
  predicate TruthyValue(v: Value)
  {
    match v
    case Str(s) => s != ""
    case NonStr(_, t, _) => t
  }

  /** `item.get(key, default)` rendered by an f-string. */
  function Shown(v: Option<Value>, default: string): string
  {
    match v
    case None => default
    case Some(Str(s)) => s
    case Some(NonStr(shown, _, _)) => shown
  }

  /** Number of GETs in a trace. */
  function GetCount(trace: seq<Access>): (n: nat)
    ensures n <= |trace|
    ensures n == 0 <==> forall i :: 0 <= i < |trace| ==> !trace[i].Get?
  {
    if trace == [] then 0
    else (if trace[0].Get? then 1 else 0) + GetCount(trace[1..])
  }
}
