/**
 * What the resolution protocol guarantees, stated over the reference
 * definitions of `list_specs` and `fetch_spec` (which the methods are proved
 * to compute).
 */
module ServerProperties {
  import opened Env
  import opened Text
  import opened Paths
  import opened Server

  // ---------------------------------------------------------------- index precedence

  /** A truthy local index is used as is; the remote index URL is never requested. */
  lemma LocalIndexWins(w: World, indexFile: string)
    requires Truthy(LocalAttempt(w, indexFile))
    ensures LoadSpec(w, indexFile).data == LocalAttempt(w, indexFile)
    ensures LoadSpec(w, indexFile).trace == [Open(indexFile)]
    ensures GetCount(LoadSpec(w, indexFile).trace) == 0
  {
  }

  /** Otherwise the remote index is requested exactly once, after the local attempt. */
  lemma RemoteIndexTriedOnce(w: World, indexFile: string)
    requires !Truthy(LocalAttempt(w, indexFile))
    ensures var t := LoadSpec(w, indexFile).trace;
      && GetCount(t) == 1
      && t[|t| - 1] == Get(INDEX_URL)
      && t[..|t| - 1] == (if indexFile in w.files then [Open(indexFile)] else [])
  {
    var t := LoadSpec(w, indexFile).trace;
    if indexFile in w.files {
      assert t == [Open(indexFile), Get(INDEX_URL)];
      assert t[1..] == [Get(INDEX_URL)];
    } else {
      assert t == [Get(INDEX_URL)];
    }
  }

  /** No merging: the loaded index is usable exactly when the local one is, or
      failing that the remote one; the remote one never overrides a usable local one. */
  lemma IndexUsableIff(w: World, indexFile: string)
    ensures Truthy(LoadSpec(w, indexFile).data)
      <==> Truthy(LocalAttempt(w, indexFile)) || (RemoteIndex(w).Some? && Truthy(RemoteIndex(w).value))
    ensures Truthy(LoadSpec(w, indexFile).data) && !Truthy(LocalAttempt(w, indexFile))
      ==> LoadSpec(w, indexFile).data == RemoteIndex(w).value
  {
  }

  /** With a usable local index, loading does not depend on the network at all. */
  lemma LoadIgnoresNetwork(w: World, indexFile: string, g: string -> Response, h: string -> Response)
    requires Truthy(LocalAttempt(w, indexFile))
    ensures LoadSpec(w.(indexGet := g, documentGet := h), indexFile) == LoadSpec(w, indexFile)
  {
    assert LocalAttempt(w.(indexGet := g, documentGet := h), indexFile) == LocalAttempt(w, indexFile);
  }

  /** Neither source usable: the two fixed messages. */
  lemma NoIndexMessages(w: World, baseDir: string, name: string)
    requires !Truthy(LocalAttempt(w, IndexFile(baseDir)))
    requires !(RemoteIndex(w).Some? && Truthy(RemoteIndex(w).value))
    ensures ListSpecsSpec(w, baseDir).out == "No specifications found (checked local and remote)."
    ensures FetchSpecSpec(w, baseDir, name).out == "Error: Could not load index file (local or remote)."
    ensures FetchSpecSpec(w, baseDir, name).trace == LoadSpec(w, IndexFile(baseDir)).trace
  {
    IndexUsableIff(w, IndexFile(baseDir));
    var data := LoadSpec(w, IndexFile(baseDir)).data;
    assert !Truthy(data);
    match data
    case Null =>
    case NonSequence(_, _) =>
    case Items(items) => assert items == [];
  }

  // ---------------------------------------------------------------- list_specs

  /** With a usable local index `list_specs` makes no request and its result
      is the same whatever the network would answer. */
  lemma ListSpecsOffline(w: World, baseDir: string, g: string -> Response, h: string -> Response)
    requires Truthy(LocalAttempt(w, IndexFile(baseDir)))
    ensures GetCount(ListSpecsSpec(w, baseDir).trace) == 0
    ensures ListSpecsSpec(w.(indexGet := g, documentGet := h), baseDir) == ListSpecsSpec(w, baseDir)
  {
    LoadIgnoresNetwork(w, IndexFile(baseDir), g, h);
  }

  /** The listing line of each entry, in index order. */
  function LineTexts(items: seq<Item>): (r: seq<string>)
    requires AllMappings(items)
    ensures |r| == |items|
    ensures forall i :: 0 <= i < |items| ==> r[i] == EntryText(items[i].entry)
  {
    if items == [] then []
    else [EntryText(items[0].entry)] + LineTexts(items[1..])
  }

  /** No rendered entry spans more than one line. */
  predicate SingleLines(items: seq<Item>)
    requires AllMappings(items)
  {
    forall i :: 0 <= i < |items| ==> '\n' !in EntryText(items[i].entry)
  }

  lemma {:induction false} LinesSplit(items: seq<Item>)
    requires AllMappings(items)
    requires SingleLines(items)
    ensures SplitOn(Lines(items), '\n') == LineTexts(items) + [""]
  {
    if items != [] {
      assert SingleLines(items[1..]) by {
        forall i | 0 <= i < |items[1..]|
          ensures '\n' !in EntryText(items[1..][i].entry)
        {
          assert items[1..][i] == items[i + 1];
        }
      }
      LinesSplit(items[1..]);
      SplitAfter(EntryText(items[0].entry), '\n', Lines(items[1..]));
      assert Lines(items) == EntryText(items[0].entry) + ['\n'] + Lines(items[1..]);
    }
  }

  /** The shape of a listing: the header line, then exactly one line
      `- {name}: {description}` per entry in index order, then nothing
      (the text ends with a newline).  Holds when no rendered field itself
      contains a newline. */
  lemma {:induction false} ListingShape(items: seq<Item>)
    requires items != [] && AllMappings(items)
    requires SingleLines(items)
    ensures var lines := SplitOn(Listing(Items(items)), '\n');
      && |lines| == |items| + 2
      && lines[0] == "Available Specifications:"
      && (forall i :: 0 <= i < |items| ==> lines[i + 1] == EntryText(items[i].entry))
      && lines[|items| + 1] == ""
  {
    ListingOfEntries(items);
    ListingSplit(items);
  }

  lemma ListingSplit(items: seq<Item>)
    requires items != [] && AllMappings(items)
    requires SingleLines(items)
    ensures SplitOn(HEADER + Lines(items), '\n') == ["Available Specifications:"] + (LineTexts(items) + [""])
  {
    LinesSplit(items);
    HeaderSplit(Lines(items));
  }

  lemma HeaderSplit(rest: string)
    ensures SplitOn(HEADER + rest, '\n') == ["Available Specifications:"] + SplitOn(rest, '\n')
  {
    var title := "Available Specifications:";
    assert '\n' !in title;
    SplitAfter(title, '\n', rest);
    assert HEADER + rest == title + ['\n'] + rest;
  }

  /** A non-empty index of mappings lists as the header followed by the entry lines. */
  lemma ListingOfEntries(items: seq<Item>)
    requires items != [] && AllMappings(items)
    ensures Listing(Items(items)) == HEADER + Lines(items)
  {
  }


  /** Missing keys render with the defaults; present string values render as they are. */
  lemma EntryTextDefaults(name: Option<Value>, description: Option<Value>, file: Option<Value>)
    ensures EntryText(Entry(None, description, file)) == "- Unknown: " + Shown(description, "No description")
    ensures EntryText(Entry(name, None, file)) == "- " + Shown(name, "Unknown") + ": No description"
    ensures name.Some? && name.value.Str? && description.Some? && description.value.Str? ==>
      EntryText(Entry(name, description, file)) == "- " + name.value.s + ": " + description.value.s
  {
  }

  /** Every `list_specs` result is the fixed "none found" text, a listing, or an
      error report caught at the outer handler. */
  lemma ListSpecsOutcomes(w: World, baseDir: string)
    ensures var out := ListSpecsSpec(w, baseDir).out;
      || out == NO_SPECS
      || StartsWith(out, "Available Specifications:\n")
      || StartsWith(out, "Error reading index: ")
  {
    var out := ListSpecsSpec(w, baseDir).out;
    match LoadSpec(w, IndexFile(baseDir)).data
    case Null =>
    case NonSequence(t, e) =>
      if t { assert out == "Error reading index: " + e; }
    case Items(items) =>
      if items != [] {
        match FirstFault(items)
        case Some(e) => assert out == "Error reading index: " + e;
        case None => assert out == HEADER + Lines(items);
      }
  }

  /** A malformed element anywhere in the index turns the whole listing into an
      error report carrying that element's message (the first such element). */
  lemma {:induction false} ListingFault(items: seq<Item>, i: nat)
    requires i < |items| && items[i].NonMapping?
    requires forall j :: 0 <= j < i ==> items[j].Mapping?
    ensures Listing(Items(items)) == "Error reading index: " + items[i].error
  {
    FirstFaultAt(items, i);
  }

  lemma {:induction false} FirstFaultAt(items: seq<Item>, i: nat)
    requires i < |items| && items[i].NonMapping?
    requires forall j :: 0 <= j < i ==> items[j].Mapping?
    ensures FirstFault(items) == Some(items[i].error)
  {
    if i > 0 {
      FirstFaultAt(items[1..], i - 1);
    }
  }

  // ---------------------------------------------------------------- name resolution

  /** Entry `i` is the first with the requested name, and every element before
      it is a mapping. */
  predicate FirstMatchAt(items: seq<Item>, name: string, i: nat)
  {
    && i < |items| && Named(items[i], name)
    && forall j :: 0 <= j < i ==> items[j].Mapping? && !Named(items[j], name)
  }

  /** First-match semantics: the lookup yields the `file` of the first entry
      with the requested name. */
  lemma {:induction false} ResolveFirstMatch(items: seq<Item>, name: string, i: nat)
    requires FirstMatchAt(items, name, i)
    ensures Resolve(items, name) == Target(items[i].entry.file)
  {
    if i > 0 {
      assert FirstMatchAt(items[1..], name, i - 1) by {
        forall j | 0 <= j < i - 1
          ensures items[1..][j].Mapping? && !Named(items[1..][j], name)
        {
          assert items[1..][j] == items[j + 1];
        }
      }
      ResolveFirstMatch(items[1..], name, i - 1);
    }
  }

  /** No entry has the name: nothing is found. */
  lemma {:induction false} ResolveNoMatch(items: seq<Item>, name: string)
    requires forall j :: 0 <= j < |items| ==> items[j].Mapping? && !Named(items[j], name)
    ensures Resolve(items, name) == Target(None)
  {
    if items != [] {
      assert forall j :: 0 <= j < |items[1..]| ==> items[1..][j] == items[j + 1];
      ResolveNoMatch(items[1..], name);
    }
  }

  /** A malformed element reached before any match aborts the lookup with its message. */
  lemma {:induction false} ResolveFault(items: seq<Item>, name: string, i: nat)
    requires i < |items| && items[i].NonMapping?
    requires forall j :: 0 <= j < i ==> items[j].Mapping? && !Named(items[j], name)
    ensures Resolve(items, name) == Fault(items[i].error)
  {
    if i > 0 {
      assert forall j :: 0 <= j < i - 1 ==> items[1..][j] == items[j + 1];
      ResolveFault(items[1..], name, i - 1);
    }
  }

  /** Later entries, duplicates included, are never consulted once a match is found. */
  lemma ResolveIgnoresLater(items: seq<Item>, rest: seq<Item>, name: string, i: nat)
    requires FirstMatchAt(items, name, i)
    ensures Resolve(items + rest, name) == Resolve(items, name)
  {
    var all := items + rest;
    assert FirstMatchAt(all, name, i) by {
      assert all[i] == items[i];
      assert forall j :: 0 <= j < i ==> all[j] == items[j];
    }
    ResolveFirstMatch(all, name, i);
    ResolveFirstMatch(items, name, i);
  }

  // ---------------------------------------------------------------- fetch_spec

  /** A first match whose `file` is missing or empty reports the name as not
      found, whatever later entries say, and touches no document. */
  lemma FirstMatchWithoutFile(w: World, baseDir: string, name: string, items: seq<Item>, i: nat)
    requires LoadSpec(w, IndexFile(baseDir)).data == Items(items)
    requires FirstMatchAt(items, name, i) && !Resolved(items[i].entry.file)
    ensures FetchSpecSpec(w, baseDir, name).out == "Error: Spec '" + name + "' not found in index."
    ensures FetchSpecSpec(w, baseDir, name).trace == LoadSpec(w, IndexFile(baseDir)).trace
  {
    ResolveFirstMatch(items, name, i);
  }

  /** A name that no entry carries is reported as not found and no document
      (local or remote) is fetched. */
  lemma UnknownNameFetchesNothing(w: World, baseDir: string, name: string, items: seq<Item>)
    requires LoadSpec(w, IndexFile(baseDir)).data == Items(items) && items != []
    requires forall j :: 0 <= j < |items| ==> items[j].Mapping? && !Named(items[j], name)
    ensures FetchSpecSpec(w, baseDir, name).out == "Error: Spec '" + name + "' not found in index."
    ensures FetchSpecSpec(w, baseDir, name).trace == LoadSpec(w, IndexFile(baseDir)).trace
  {
    ResolveNoMatch(items, name);
  }

  /** The resolved reference, once normalised, is what both the local join and the
      URL are built from: references with the same normal form fetch alike. */
  lemma FetchUsesNormalizedPath(w: World, baseDir: string, name: string, items: seq<Item>, items': seq<Item>, s: string, s': string)
    requires Resolve(items, name) == Target(Some(Str(s))) && s != ""
    requires Resolve(items', name) == Target(Some(Str(s'))) && s' != ""
    requires NormPath(s) == NormPath(s')
    ensures FetchFrom(w, baseDir, Items(items), name) == FetchFrom(w, baseDir, Items(items'), name)
    ensures FetchFrom(w, baseDir, Items(items), name) == DocumentSpec(w, DocsDir(baseDir), NormPath(s))
  {
    assert items != [] && items' != [];
  }

  /** `a/../b.md` and `b.md` name the same document. */
  lemma ParentSegmentFetchesAlike(w: World, baseDir: string, name: string, items: seq<Item>, items': seq<Item>, a: string, b: string)
    requires PlainName(a) && PlainName(b)
    requires Resolve(items, name) == Target(Some(Str(a + "/../" + b)))
    requires Resolve(items', name) == Target(Some(Str(b)))
    ensures FetchFrom(w, baseDir, Items(items), name) == FetchFrom(w, baseDir, Items(items'), name)
  {
    NormPathCancelsParent(a, b);
    assert NormPath(b) == b by {
      SplitOnWithout(b, '/');
      assert Collapse([b], false, []) == Collapse([], false, [b]);
    }
    FetchUsesNormalizedPath(w, baseDir, name, items, items', a + "/../" + b, b);
  }

  /** A readable local document is returned verbatim and nothing is requested
      after the index stage. */
  lemma LocalDocumentWins(w: World, docsDir: string, normalized: string)
    requires Join(docsDir, normalized) in w.files && w.files[Join(docsDir, normalized)].Readable?
    ensures DocumentSpec(w, docsDir, normalized).out == w.files[Join(docsDir, normalized)].text
    ensures DocumentSpec(w, docsDir, normalized).trace == [Open(Join(docsDir, normalized))]
    ensures GetCount(DocumentSpec(w, docsDir, normalized).trace) == 0
  {
  }

  /** An absent or unreadable local document falls through to exactly one GET
      of the public URL built from the same normalised reference. */
  lemma RemoteDocumentFallback(w: World, docsDir: string, normalized: string)
    requires !(Join(docsDir, normalized) in w.files && w.files[Join(docsDir, normalized)].Readable?)
    ensures var t := DocumentSpec(w, docsDir, normalized).trace;
      && GetCount(t) == 1
      && t[|t| - 1] == Get(REPO_BASE_URL + "/spec/docs/" + normalized)
  {
    var t := DocumentSpec(w, docsDir, normalized).trace;
    if Join(docsDir, normalized) in w.files {
      assert t[1..] == [t[1]];
    }
  }

  /** With no readable local copy, the fetch returns what the dispatch makes of
      its own document request's reply: a 200 body verbatim, a 404 report ending
      with that request's URL, any other status named by its code. */
  lemma RemoteDocumentReply(w: World, docsDir: string, normalized: string, code: nat, body: string)
    requires !(Join(docsDir, normalized) in w.files && w.files[Join(docsDir, normalized)].Readable?)
    requires w.documentGet(DocUrl(normalized)) == Reply(code, body)
    ensures DocumentSpec(w, docsDir, normalized).out == StatusMessage(code, body, normalized, DocUrl(normalized))
    ensures code == 200 ==> DocumentSpec(w, docsDir, normalized).out == body
    ensures code == 404 ==>
      var m := DocumentSpec(w, docsDir, normalized).out;
      && StartsWith(m, "Error: Spec file '" + normalized)
      && EndsWith(m, "(404).\nURL: " + REPO_BASE_URL + "/spec/docs/" + normalized)
    ensures code != 200 && code != 404 ==> DocumentSpec(w, docsDir, normalized).out == BadStatus(code)
  {
    if code == 404 {
      NotFoundNames(normalized, DocUrl(normalized));
      assert "(404).\nURL: " + DocUrl(normalized) == "(404).\nURL: " + REPO_BASE_URL + "/spec/docs/" + normalized;
    }
  }

  /** The status dispatch on the remote document: 200 passes the body through,
      404 names the normalised path, "(404)" and the URL, anything else names the code. */
  lemma StatusDispatch(code: nat, body: string, normalized: string, url: string)
    ensures code == 200 ==> StatusMessage(code, body, normalized, url) == body
    ensures code == 404 ==>
      var m := StatusMessage(code, body, normalized, url);
      && StartsWith(m, "Error: Spec file '" + normalized)
      && EndsWith(m, "(404).\nURL: " + url)
    ensures code != 200 && code != 404 ==>
      var m := StatusMessage(code, body, normalized, url);
      var prefix := "Error: Failed to fetch spec." + " Status code: ";
      && StartsWith(m, prefix)
      && (forall i :: |prefix| <= i < |m| ==> '0' <= m[i] <= '9')
      && DigitsValue(m[|prefix|..]) == code
  {
    if code == 404 {
      NotFoundNames(normalized, url);
    } else if code != 200 {
      BadStatusNames(code);
    }
  }

  lemma NotFoundNames(normalized: string, url: string)
    ensures StartsWith(NotFound404(normalized, url), "Error: Spec file '" + normalized)
    ensures EndsWith(NotFound404(normalized, url), "(404).\nURL: " + url)
  {
    var head := "Error: Spec file '" + normalized;
    var middle := "' not found locally or in public repository ";
    var tail := "(404).\nURL: " + url;
    assert NotFound404(normalized, url) == head + middle + tail;
    StartsWithConcat(head, middle + tail);
    assert (head + middle + tail)[|head + middle|..] == tail;
  }

  lemma BadStatusNames(code: nat)
    ensures var m := BadStatus(code);
      var prefix := "Error: Failed to fetch spec." + " Status code: ";
      && StartsWith(m, prefix)
      && (forall i :: |prefix| <= i < |m| ==> '0' <= m[i] <= '9')
      && DigitsValue(m[|prefix|..]) == code
  {
    var prefix := "Error: Failed to fetch spec." + " Status code: ";
    StartsWithConcat(prefix, NatToString(code));
    assert BadStatus(code)[|prefix|..] == NatToString(code);
    NatToStringRoundTrip(code);
  }

  /** The document request is a request of its own: what it returns does not
      depend on the answer the index request got, even for the same URL. */
  lemma DocumentIgnoresIndexGet(w: World, docsDir: string, normalized: string, g: string -> Response)
    ensures DocumentSpec(w.(indexGet := g), docsDir, normalized) == DocumentSpec(w, docsDir, normalized)
  {
  }

  /** A network failure on the document GET is not handled locally: it reaches
      the outer handler and is reported with its message. */
  lemma DocumentNetworkFailure(w: World, docsDir: string, normalized: string, msg: string)
    requires !(Join(docsDir, normalized) in w.files && w.files[Join(docsDir, normalized)].Readable?)
    requires w.documentGet(DocUrl(normalized)) == NetError(msg)
    ensures DocumentSpec(w, docsDir, normalized).out == "Error fetching spec: " + msg
  {
  }

  /** Every report the service produces on failure begins with "Error". */
  lemma ErrorReports(msg: string, name: string, normalized: string, url: string, code: nat)
    ensures StartsWith(ReadIndexError(msg), "Error")
    ensures StartsWith(FetchError(msg), "Error")
    ensures StartsWith(NotInIndex(name), "Error")
    ensures StartsWith(NotFound404(normalized, url), "Error")
    ensures StartsWith(BadStatus(code), "Error")
  {
    KeepsPrefix("Error reading index: ", msg, "Error");
    KeepsPrefix("Error fetching spec: ", msg, "Error");
    KeepsPrefix("Error: Spec '", name, "Error");
    KeepsPrefix("Error: Spec '" + name, "' not found in index.", "Error");
    KeepsPrefix("Error: Spec file '", normalized, "Error");
    KeepsPrefix("Error: Spec file '" + normalized,
      "' not found locally or in public repository (404).\nURL: ", "Error");
    KeepsPrefix("Error: Spec file '" + normalized + "' not found locally or in public repository (404).\nURL: ",
      url, "Error");
    KeepsPrefix("Error: Failed to fetch spec.", " Status code: ", "Error");
    KeepsPrefix("Error: Failed to fetch spec." + " Status code: ", NatToString(code), "Error");
  }

  /** A document fetch returns the local text, a 200 body, or an "Error" report. */
  lemma DocumentOutcomes(w: World, docsDir: string, normalized: string)
    ensures var out := DocumentSpec(w, docsDir, normalized).out;
      || StartsWith(out, "Error")
      || (exists p :: p in w.files && w.files[p] == Readable(out))
      || (exists u :: w.documentGet(u) == Reply(200, out))
  {
    var out := DocumentSpec(w, docsDir, normalized).out;
    var local := Join(docsDir, normalized);
    var url := DocUrl(normalized);
    if local in w.files && w.files[local].Readable? {
      assert w.files[local] == Readable(out);
    } else {
      match w.documentGet(url)
      case NetError(e) =>
        assert StartsWith(out, "Error") by {
          ErrorReports(e, "", normalized, url, 0);
        }
      case Reply(code, body) =>
        if code == 200 {
          assert w.documentGet(url) == Reply(200, out);
        } else {
          assert StartsWith(out, "Error") by {
            ErrorReports("", "", normalized, url, code);
          }
        }
    }
  }

  /** Every `fetch_spec` result is either document text (a readable local file or
      a 200 body), the fixed "could not load index" report, or another message
      starting with "Error": nothing escapes. */
  lemma FetchSpecOutcomes(w: World, baseDir: string, name: string)
    ensures var out := FetchSpecSpec(w, baseDir, name).out;
      || out == NO_INDEX
      || StartsWith(out, "Error")
      || (exists p :: p in w.files && w.files[p] == Readable(out))
      || (exists u :: w.documentGet(u) == Reply(200, out))
  {
    var out := FetchSpecSpec(w, baseDir, name).out;
    var data := LoadSpec(w, IndexFile(baseDir)).data;
    assert out == FetchFrom(w, baseDir, data, name).out;
    match data
    case Null =>
    case NonSequence(truthy, e) =>
      if truthy {
        assert StartsWith(out, "Error") by {
          ErrorReports(e, name, "", "", 0);
        }
      }
    case Items(items) =>
      if items != [] {
        match Resolve(items, name)
        case Fault(e) =>
          assert StartsWith(out, "Error") by {
            ErrorReports(e, name, "", "", 0);
          }
        case Target(file) =>
          if !Resolved(file) {
            assert StartsWith(out, "Error") by {
              ErrorReports("", name, "", "", 0);
            }
          } else if file.value.NonStr? {
            assert StartsWith(out, "Error") by {
              ErrorReports(file.value.pathError, name, "", "", 0);
            }
          } else {
            DocumentOutcomes(w, DocsDir(baseDir), NormPath(file.value.s));
          }
      }
  }
}
