# Spec Fetcher resolution protocol in Dafny

This project models the spec fetcher service, `spec/src/server.py`. The service exposes two tools:

- `list_specs()` lists the entries of a YAML index of specification documents.
- `fetch_spec(name)` looks a name up in that index and returns the document the entry's `file` points to.

Each tool first loads the index from `../docs/index.yml` relative to the script's directory (`spec/src/server.py:11-13`). Only when that value is falsy does it request the
copy in the public repository. The fetch then resolves the name to the *first* entry carrying it and normalises the
entry's `file` with `os.path.normpath`. It reads the local copy under the docs directory, or else does one GET of the public
URL and dispatches on the status: 200 returns the body, 404 and any other code return error reports. An outer handler
turns any exception into an `"Error reading index: …"` / `"Error fetching spec: …"` text, so neither tool ever raises.

The outside world is a value, `Env.World`:

- the set of existing paths, each readable (with its text-mode contents) or raising on read;
- the outcome of `requests.get` for each URL (a network error, or a status and a body). The index request (`indexGet`) and the document request (`documentGet`) each have their own answer;
- what `yaml.safe_load` makes of a text.

YAML values are reduced to what the code reacts to:

- `Env.Doc`: null, a sequence of items, or anything else, with its truthiness;
- `Env.Item`: a mapping, or a non-mapping that raises when `.get` is called on it;
- `Env.Value`: a string, or another scalar with its rendering, truthiness and path error.

Each operation returns its output text and the trace of sources it contacted, in order:

- `Open(path)` for each open of an existing file;
- `Get(url)` for each HTTP request.

The module layout follows the source:

- `env.dfy`: the world and its values.
- `text.dfy`: `str.split`, `str.join` and the decimal rendering of an integer.
- `paths.dfy`: POSIX `os.path.join` and `os.path.normpath`.
- `server.dfy`: the operations. They are written as methods that follow the source statement by statement (loops, `break`, early `return`s). Each method is proved equal to a reference function:
  - `LoadIndex` to `LoadSpec`;
  - `RenderListing` to `HEADER + Lines(items)`, or the `ReadIndexError` report of the first non-mapping element;
  - `ListSpecs` to `ListSpecsSpec`;
  - `FindTarget` to `Resolve`;
  - `FetchDocument` to `DocumentSpec`;
  - `FetchSpec` to `FetchSpecSpec`.
- `properties.dfy`: what the protocol guarantees, proved over those functions:
  - local-first precedence and no merging;
  - first-match resolution;
  - local-then-remote document fetch;
  - the status dispatch;
  - the shape of the listing;
  - every exception ending in an "Error" report.

Three behaviours of the code a reader might not expect, all modelled as written:

- A truthy index whose elements are not all mappings is still "usable" in the code. The code does not fall back to the remote index: it raises while iterating, and the outer handler reports it (`ServerProperties.ListingFault`, `ServerProperties.ResolveFault`).
- A present key with a non-string value is rendered as Python renders it. The `"Unknown"` / `"No description"` defaults apply only to absent keys.
- `normpath` does not confine a reference to the docs directory. A leading `..` survives (`Paths.NormPathKeepsLeadingParent`), and an absolute reference replaces the docs directory in `os.path.join` (`Paths.Join`).

## Model

| member | source | states |
|---|---|---|
| Server.LoadIndex | spec/src/server.py:22-41 | the index-loading block yields the value and trace of `LoadSpec`: the local parse if truthy, else the remote 200 parse if any, else the falsy local value |
| ServerProperties.LocalIndexWins | spec/src/server.py:24-34 | a truthy local index is used as is, after one open and with no GET |
| ServerProperties.RemoteIndexTriedOnce | spec/src/server.py:33-41 | a falsy local value leads to exactly one GET, of the index URL, after the local open (if the file exists) |
| ServerProperties.IndexUsableIff | spec/src/server.py:22-44 | the loaded index is truthy iff the local one is or the remote 200 parse is; a falsy local value is replaced by the remote one, never merged |
| ServerProperties.LoadIgnoresNetwork | spec/src/server.py:24-34 | with a truthy local index, loading does not depend on the network at all |
| ServerProperties.NoIndexMessages | spec/src/server.py:43-44 | with neither source usable, `list_specs` returns the "No specifications found" text and `fetch_spec` the "Could not load index file" text, contacting nothing after the index stage |
| Server.RenderListing | spec/src/server.py:46-52 | the listing loop returns the header plus one `- name: description` line per entry, or the first non-mapping element's message in an "Error reading index" report |
| Server.ListSpecs | spec/src/server.py:17-54 | `list_specs` returns the output and trace of `ListSpecsSpec` |
| ServerProperties.ListSpecsOffline | spec/src/server.py:22-52 | with a truthy local index `list_specs` makes no request, and its result is the same whatever the network answers |
| ServerProperties.ListingShape | spec/src/server.py:46-52 | split at newlines, a listing is the header line, one line per entry in index order, then an empty tail |
| ServerProperties.EntryTextDefaults | spec/src/server.py:48-50 | absent `name` / `description` render as "Unknown" / "No description"; present strings render unchanged |
| ServerProperties.ListSpecsOutcomes | spec/src/server.py:43-54 | every `list_specs` result is the "none found" text, a listing, or an "Error reading index" report |
| ServerProperties.ListingFault | spec/src/server.py:47-54 | a non-mapping element, the first one, turns the whole listing into an "Error reading index" report carrying its message |
| Server.FindTarget | spec/src/server.py:86-91 | the lookup loop returns what `Resolve` returns: the first named entry's `file`, or the message of a non-mapping element reached before it |
| ServerProperties.ResolveFirstMatch | spec/src/server.py:87-91 | the lookup yields the `file` of the first entry whose name equals the request |
| ServerProperties.ResolveNoMatch | spec/src/server.py:87-94 | when no entry carries the name, the lookup finds nothing |
| ServerProperties.ResolveFault | spec/src/server.py:88-89 | a non-mapping element before any match aborts the lookup with its message |
| ServerProperties.ResolveIgnoresLater | spec/src/server.py:88-91 | entries after the first match, including duplicates of the name, never change the result |
| ServerProperties.FirstMatchWithoutFile | spec/src/server.py:86-94 | a first match with a missing or empty `file` is reported as not found, even if a later entry has a file, and no document is contacted |
| ServerProperties.UnknownNameFetchesNothing | spec/src/server.py:93-94 | an unknown name yields "Error: Spec '{name}' not found in index." and contacts no document source |
| Paths.NormPath | spec/src/server.py:96 | `os.path.normpath` never yields the empty string |
| Paths.NormPathIdempotent | spec/src/server.py:96 | normalising twice equals normalising once |
| Paths.NormPathCancelsParent | spec/src/server.py:96 | `a/../b` normalises to `b` |
| Paths.NormPathKeepsLeadingParent | spec/src/server.py:96 | a leading `..` survives normalisation, so references are not confined to the docs directory |
| Paths.Join | spec/src/server.py:99 | `os.path.join(d, p)` is `p` for an absolute `p`, and otherwise starts with `d` and ends with `p` |
| ServerProperties.FetchUsesNormalizedPath | spec/src/server.py:96-108 | the local path and the URL both come from the normalised reference, so references with the same normal form fetch alike |
| ServerProperties.ParentSegmentFetchesAlike | spec/src/server.py:96-108 | entries naming `a/../b` and `b` fetch the same document |
| Server.FetchDocument | spec/src/server.py:98-117 | the document fetch returns the output and trace of `DocumentSpec` |
| ServerProperties.LocalDocumentWins | spec/src/server.py:99-103 | a readable local document is returned verbatim, after one open and with no GET |
| ServerProperties.RemoteDocumentFallback | spec/src/server.py:100-110 | an absent or unreadable local document leads to exactly one GET, of the public URL of the normalised reference |
| ServerProperties.RemoteDocumentReply | spec/src/server.py:107-117 | with no readable local copy, a 200 reply to the document request is returned verbatim; a 404 reply gives a report naming the normalised path and ending with "URL: " and `REPO_BASE_URL + "/spec/docs/" + normalized`; any other status gives the status-code report |
| ServerProperties.StatusDispatch | spec/src/server.py:112-117 | 200 returns the body; 404 names the normalised path, "(404)" and the URL; any other status names the code in decimal, which reads back to the code |
| Text.NatToStringRoundTrip | spec/src/server.py:117 | the decimal rendering of a status code reads back to the code |
| ServerProperties.DocumentIgnoresIndexGet | spec/src/server.py:108-117 | the document fetch depends only on the document request's answer, never on what the earlier index request returned |
| ServerProperties.DocumentNetworkFailure | spec/src/server.py:110 | a network failure on the document GET is not handled locally; it becomes an "Error fetching spec" report with its message |
| ServerProperties.ErrorReports | spec/src/server.py:115-120 | every failure report the service produces begins with "Error" |
| ServerProperties.DocumentOutcomes | spec/src/server.py:98-120 | a document fetch returns a local file's text, a 200 body, or an "Error" report |
| Server.FetchSpec | spec/src/server.py:57-120 | `fetch_spec` returns the output and trace of `FetchSpecSpec` |
| ServerProperties.FetchSpecOutcomes | spec/src/server.py:64-120 | every `fetch_spec` result is document text (a local file or a 200 body) or an "Error" report: nothing escapes |

## Left out

- Reading files, HTTP and YAML parsing are not modelled. They are parameters of `Env.World`: the files and their text-mode contents, the response per URL, and the parse per text. Newline translation and decoding of text-mode reads are therefore inside `World.files`.
- `os.path.exists` calls are not recorded in the trace, only opens and GETs. `os.path.exists` is taken to be exactly "the path is a key of `World.files`".
- Each request site answers as one function of its URL. A call makes at most one index request and at most one document request, so this matters only in one case. That is when a document reference normalises to `index.yml`: the document URL is then the index URL, and the two requests may still answer differently (`ServerProperties.DocumentIgnoresIndexGet`). Answers that change over time beyond that are not modelled.
- Exception messages (`str(e)`) are opaque strings carried by the value that raises: a non-mapping element, a non-sequence index, a non-string `file`, or a network error.
- `BASE_DIR` (`os.path.abspath` / `os.path.dirname` of the script path) is a parameter, `baseDir`. The docs directory and the index path are built from it as at `spec/src/server.py:12-13`. The URLs are built from `REPO_BASE_URL` as at `spec/src/server.py:14`, `35` and `108`.
- The FastMCP registration and the uvicorn/SSE server (`spec/src/server.py:5-8`, `16`, `56`, `122-123`) are not part of this model. Neither is concurrency between tool calls: each call is a function of the world it sees.
- Paths are POSIX only, as `posixpath` joins and normalises them. Byte-string paths are not modelled.
- Index values are reduced to the cases the code distinguishes. In particular, a truthy mapping, string or number is one case, `NonSequence`: iterating it, or calling `.get` on what iteration yields, raises.
- ServerProperties.ListingShape: stated only for entries whose rendered name and description contain no newline. Otherwise a listing line spans several text lines.
