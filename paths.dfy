/**
 * The two path operations the fetcher applies to an index entry's `file`:
 * POSIX `os.path.normpath` and two-argument `os.path.join`.
 */
module Paths {
  import opened Text

  /** `os.path.join(a, b)` on POSIX: an absolute `b` replaces `a`. */
  function Join(a: string, b: string): (r: string)
    ensures StartsWith(b, "/") ==> r == b
    ensures !StartsWith(b, "/") ==> StartsWith(r, a) && |r| >= |b| && r[|r| - |b|..] == b
  {
    if |b| > 0 && b[0] == '/' then b
    else if a == [] || a[|a| - 1] == '/' then a + b
    else a + "/" + b
  }

  /** How many leading slashes `normpath` keeps: POSIX gives exactly two a
      meaning of their own, three or more collapse to one. */
  function LeadingSlashes(p: string): (k: nat)
    ensures k <= 2
  {
    if |p| >= 2 && p[0] == '/' && p[1] == '/' && !(|p| >= 3 && p[2] == '/') then 2
    else if |p| >= 1 && p[0] == '/' then 1
    else 0
  }

  function Slashes(k: nat): string
    requires k <= 2
  {
    if k == 0 then "" else if k == 1 then "/" else "//"
  }

  /** The component loop of `normpath`: drops empty and `.` components, and lets
      `..` cancel the previous component unless that is itself `..`; at the root
      a `..` is dropped, in a relative path with nothing to cancel it is kept. */
  function Collapse(comps: seq<string>, rooted: bool, kept: seq<string>): seq<string>
    decreases |comps|
  {
    if comps == [] then kept
    else
      var comp := comps[0];
      if comp == "" || comp == "." then Collapse(comps[1..], rooted, kept)
      else if comp != ".." || (!rooted && kept == []) || (kept != [] && kept[|kept| - 1] == "..") then
        Collapse(comps[1..], rooted, kept + [comp])
      else if kept != [] then Collapse(comps[1..], rooted, kept[..|kept| - 1])
      else Collapse(comps[1..], rooted, kept)
  }

  /** The kept leading slashes followed by the kept components; `.` when nothing is left. */
  function Assemble(k: nat, comps: seq<string>): (r: string)
    requires k <= 2
    ensures r != ""
  {
    var r := Slashes(k) + JoinWith(comps, '/');
    if r == "" then "." else r
  }

  /** `os.path.normpath(p)` on POSIX. */
  function NormPath(p: string): (r: string)
    ensures r != ""
  {
    if p == "" then "."
    else
      var k := LeadingSlashes(p);
      Assemble(k, Collapse(SplitOn(p, '/'), k > 0, []))
  }

  /** A normalised component list: no empty, `.` or slash-bearing component, and
      `..` only in a leading run of a relative path. */
  ghost predicate Normal(comps: seq<string>, rooted: bool)
  {
    forall i :: 0 <= i < |comps| ==>
      && comps[i] != "" && comps[i] != "." && '/' !in comps[i]
      && (comps[i] == ".." ==> !rooted && forall j :: 0 <= j < i ==> comps[j] == "..")
  }

  /** The component loop only ever produces normalised lists. */
  lemma {:induction false} CollapseNormal(comps: seq<string>, rooted: bool, kept: seq<string>)
    requires Normal(kept, rooted)
    requires forall i :: 0 <= i < |comps| ==> '/' !in comps[i]
    ensures Normal(Collapse(comps, rooted, kept), rooted)
    decreases |comps|
  {
    if comps != [] {
      var comp := comps[0];
      assert forall i :: 0 <= i < |comps[1..]| ==> comps[1..][i] == comps[i + 1];
      if comp == "" || comp == "." {
        CollapseNormal(comps[1..], rooted, kept);
      } else if comp != ".." || (!rooted && kept == []) || (kept != [] && kept[|kept| - 1] == "..") {
        var next := kept + [comp];
        forall i | 0 <= i < |next| && next[i] == ".."
          ensures !rooted && forall j :: 0 <= j < i ==> next[j] == ".."
        {
          if i == |kept| && kept != [] {
            assert kept[|kept| - 1] == "..";
          }
        }
        CollapseNormal(comps[1..], rooted, next);
      } else if kept != [] {
        CollapseNormal(comps[1..], rooted, kept[..|kept| - 1]);
      } else {
        CollapseNormal(comps[1..], rooted, kept);
      }
    }
  }

  /** On a list that is already normalised the component loop keeps everything. */
  lemma {:induction false} CollapseIdle(comps: seq<string>, rooted: bool, kept: seq<string>)
    requires Normal(kept + comps, rooted)
    ensures Collapse(comps, rooted, kept) == kept + comps
    decreases |comps|
  {
    if comps != [] {
      var all := kept + comps;
      assert all[|kept|] == comps[0];
      if comps[0] == ".." && kept != [] {
        assert all[|kept| - 1] == kept[|kept| - 1];
      }
      assert kept + [comps[0]] + comps[1..] == all;
      CollapseIdle(comps[1..], rooted, kept + [comps[0]]);
    }
  }

  lemma CollapseSkipsEmpty(rest: seq<string>, rooted: bool)
    ensures Collapse([""] + rest, rooted, []) == Collapse(rest, rooted, [])
  {
    assert ([""] + rest)[0] == "" && ([""] + rest)[1..] == rest;
  }

  lemma JoinWithHead(parts: seq<string>)
    requires parts != [] && parts[0] != ""
    ensures JoinWith(parts, '/') != "" && JoinWith(parts, '/')[0] == parts[0][0]
  {
  }

  /** Normalising twice is normalising once. */
  lemma NormPathIdempotent(p: string)
    ensures NormPath(NormPath(p)) == NormPath(p)
  {
    if p != "" {
      var k := LeadingSlashes(p);
      var c := Collapse(SplitOn(p, '/'), k > 0, []);
      SplitOnPieces(p, '/');
      CollapseNormal(SplitOn(p, '/'), k > 0, []);
      var body := JoinWith(c, '/');
      var q := Slashes(k) + body;
      if q == "" {
        SplitOnWithout(".", '/');
      } else {
        assert NormPath(p) == q;
        if c != [] {
          JoinWithHead(c);
        }
        RootedSplit(k, body);
        CollapseJoined(c, k > 0);
      }
    }
  }

  /** The leading slashes `normpath` keeps are read back as such, and the
      empty components they produce are dropped again. */
  lemma RootedSplit(k: nat, body: string)
    requires k <= 2 && Slashes(k) + body != ""
    requires body == "" || body[0] != '/'
    ensures LeadingSlashes(Slashes(k) + body) == k
    ensures Collapse(SplitOn(Slashes(k) + body, '/'), k > 0, []) == Collapse(SplitOn(body, '/'), k > 0, [])
  {
    var q := Slashes(k) + body;
    var rest := SplitOn(body, '/');
    if k == 1 {
      assert q[0] == '/' && q[1..] == body;
      assert SplitOn(q, '/') == [""] + rest;
      CollapseSkipsEmpty(rest, true);
    } else if k == 2 {
      assert q[0] == '/' && q[1..] == "/" + body;
      assert q[1..][0] == '/' && q[1..][1..] == body;
      assert SplitOn(q, '/') == [""] + ([""] + rest);
      CollapseSkipsEmpty([""] + rest, true);
      CollapseSkipsEmpty(rest, true);
    } else {
      assert q == body;
    }
  }

  /** The component loop gives back a normalised list that has been joined. */
  lemma CollapseJoined(c: seq<string>, rooted: bool)
    requires Normal(c, rooted)
    ensures Collapse(SplitOn(JoinWith(c, '/'), '/'), rooted, []) == c
  {
    if c == [] {
      assert SplitOn("", '/') == [""];
      assert [""][1..] == [];
    } else {
      SplitJoin(c, '/');
      CollapseIdle(c, rooted, []);
      assert [] + c == c;
    }
  }

  /** A plain path component: what a `..` can cancel. */
  predicate PlainName(a: string)
  {
    a != "" && a != "." && a != ".." && '/' !in a
  }

  /** `..` cancels the component before it: `a/../b.md` normalises to `b.md`. */
  lemma NormPathCancelsParent(a: string, b: string)
    requires PlainName(a) && PlainName(b)
    ensures NormPath(a + "/../" + b) == b
  {
    var p := a + "/../" + b;
    SplitParent(a, b);
    assert p[0] == a[0];
    assert LeadingSlashes(p) == 0;
    assert Collapse([a, "..", b], false, []) == Collapse(["..", b], false, [a]);
    assert Collapse(["..", b], false, [a]) == Collapse([b], false, []);
    assert Collapse([b], false, []) == Collapse([], false, [b]);
  }

  lemma SplitParent(a: string, b: string)
    requires '/' !in a && '/' !in b
    ensures SplitOn(a + "/../" + b, '/') == [a, "..", b]
  {
    assert a + "/../" + b == a + ['/'] + (".." + ['/'] + b);
    SplitAfter(a, '/', ".." + ['/'] + b);
    SplitAfter("..", '/', b);
    SplitOnWithout(b, '/');
  }

  /** A leading `..` survives normalisation: `../secret.md` still points above
      the directory it is joined to. */
  lemma NormPathKeepsLeadingParent(b: string)
    requires PlainName(b)
    ensures NormPath("../" + b) == "../" + b
  {
    var p := "../" + b;
    assert p == ".." + ['/'] + b;
    SplitAfter("..", '/', b);
    SplitOnWithout(b, '/');
    assert SplitOn(p, '/') == ["..", b];
    assert ["..", b][1..] == [b] && [] + [".."] == [".."];
    assert Collapse(["..", b], false, []) == Collapse([b], false, [".."]);
    assert [b][1..] == [] && [".."] + [b] == ["..", b];
    assert Collapse([b], false, [".."]) == ["..", b];
    assert JoinWith(["..", b], '/') == ".." + ['/'] + b;
  }
}
