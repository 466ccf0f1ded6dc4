/** The slash-separated path functions of Go's `path` package that the read handler
    uses to pull the secret's id out of a link `/l/<id>/<pass>` (server.go:43-44). */
module UrlPath {

  /** Index of the last '/' in `p`, or -1 when there is none. */
  function LastSlash(p: string): (i: int)
    ensures -1 <= i < |p|
    ensures i >= 0 ==> p[i] == '/'
    ensures forall j :: i < j < |p| ==> p[j] != '/'
  {
    if p == [] then -1
    else if p[|p| - 1] == '/' then |p| - 1
    else LastSlash(p[..|p| - 1])
  }

  /** Index of the first '/' in `p`, or |p| when there is none. */
  function FirstSlash(p: string): (i: nat)
    ensures i <= |p|
    ensures i < |p| ==> p[i] == '/'
    ensures forall j :: 0 <= j < i ==> p[j] != '/'
  {
    if p == [] || p[0] == '/' then 0
    else 1 + FirstSlash(p[1..])
  }

  /** `path.Split`: everything up to and including the last slash, and the rest.
      The three properties below determine the pair uniquely. */
  function Split(p: string): (r: (string, string))
    ensures r.0 + r.1 == p
    ensures '/' !in r.1
    ensures r.0 == [] || r.0[|r.0| - 1] == '/'
  {
    var i := LastSlash(p);
    (p[..i + 1], p[i + 1..])
  }

  /** `strings.Split(p, "/")`: the elements between slashes, empty ones included. */
  function Segments(p: string): (r: seq<string>)
    ensures |r| >= 1
    ensures forall k :: 0 <= k < |r| ==> '/' !in r[k]
    decreases |p|
  {
    var i := FirstSlash(p);
    if i == |p| then [p] else [p[..i]] + Segments(p[i + 1..])
  }

  /** `strings.Join(parts, "/")`. */
  function Join(parts: seq<string>): string
  {
    if parts == [] then ""
    else if |parts| == 1 then parts[0]
    else parts[0] + "/" + Join(parts[1..])
  }

  /** The lexical rules of `path.Clean` applied element by element: empty and "." elements
      vanish, ".." removes the preceding element that is not itself "..", a ".." that
      cannot go further up is dropped in a rooted path and kept in a relative one. */
  function Resolve(elems: seq<string>, rooted: bool, out: seq<string>): seq<string>
    decreases |elems|
  {
    if elems == [] then out
    else
      var e := elems[0];
      if e == "" || e == "." then Resolve(elems[1..], rooted, out)
      else if e == ".." then
        if |out| > 0 && out[|out| - 1] != ".." then Resolve(elems[1..], rooted, out[..|out| - 1])
        else if rooted then Resolve(elems[1..], rooted, out)
        else Resolve(elems[1..], rooted, out + [".."])
      else Resolve(elems[1..], rooted, out + [e])
  }

  /** `path.Clean`: "." for the empty path, "/" for a rooted path that resolves to nothing. */
  function Clean(p: string): string
  {
    if p == "" then "."
    else
      var rooted := p[0] == '/';
      var joined := Join(Resolve(Segments(p), rooted, []));
      if rooted then "/" + joined
      else if joined == "" then "."
      else joined
  }

  /** The id the read handler looks up: the last element of the request path's directory. */
  function ExtractId(path: string): (id: string)
    ensures '/' !in id
  {
    var (rest, _) := Split(path);
    Split(Clean(rest)).1
  }

  /** A path element that `Clean` keeps unchanged. */
  predicate PlainElement(e: string) {
    e != "" && e != "." && e != ".." && '/' !in e
  }

  // ---- Properties ----

  /** Splitting and joining are inverse: the elements of a path rebuild it. */
  lemma {:induction false} JoinSegments(p: string)
    ensures Join(Segments(p)) == p
    decreases |p|
  {
    var i := FirstSlash(p);
    if i < |p| {
      JoinSegments(p[i + 1..]);
      assert p == p[..i] + "/" + p[i + 1..];
    }
  }

  lemma SegmentsOfPlain(a: string)
    requires '/' !in a
    ensures Segments(a) == [a]
  {
  }

  lemma SegmentsCons(a: string, rest: string)
    requires '/' !in a
    ensures Segments(a + "/" + rest) == [a] + Segments(rest)
  {
    var p := a + "/" + rest;
    var i := FirstSlash(p);
    assert p[|a|] == '/';
    assert i == |a|;
    assert p[..i] == a;
    assert p[i + 1..] == rest;
  }

  /** `path.Split` cuts at the last slash: after it comes only `b`. */
  lemma SplitAtLastSlash(a: string, b: string)
    requires '/' !in b
    ensures Split(a + "/" + b) == (a + "/", b)
  {
    var p := a + "/" + b;
    var i := LastSlash(p);
    assert p[|a|] == '/';
    assert i == |a|;
    assert p[..i + 1] == a + "/";
    assert p[i + 1..] == b;
  }

  /** A single element followed by a slash. */
  lemma SegmentsTrailing(a: string)
    requires '/' !in a
    ensures Segments(a + "/") == [a, ""]
  {
    SegmentsCons(a, "");
    assert a + "/" + "" == a + "/";
    SegmentsOfPlain("");
  }

  /** A rooted path starts with an empty element. */
  lemma SegmentsRooted(rest: string)
    ensures Segments("/" + rest) == [""] + Segments(rest)
  {
    SegmentsCons("", rest);
    assert "" + "/" + rest == "/" + rest;
  }

  lemma SegmentsOfDir1(a: string)
    requires '/' !in a
    ensures Segments("/" + a + "/") == ["", a, ""]
  {
    var t := a + "/";
    SegmentsTrailing(a);
    SegmentsRooted(t);
    assert "/" + a + "/" == "/" + t;
  }

  lemma SegmentsOfDir2(a: string, b: string)
    requires '/' !in a && '/' !in b
    ensures Segments("/" + a + "/" + b + "/") == ["", a, b, ""]
  {
    var t := b + "/";
    var u := a + "/" + t;
    calc {
      Segments("/" + a + "/" + b + "/");
      { RegroupDir2(a, b); }
      Segments("/" + u);
      { SegmentsRooted(u); }
      [""] + Segments(u);
      { SegmentsCons(a, t); }
      [""] + ([a] + Segments(t));
      { SegmentsTrailing(b); }
      [""] + ([a] + [b, ""]);
      ["", a, b, ""];
    }
  }

  /** The path `/a/b/` regrouped around its first and second slash. */
  lemma RegroupDir2(a: string, b: string)
    ensures "/" + a + "/" + b + "/" == "/" + (a + "/" + (b + "/"))
  {
  }

  lemma ResolveDir1(a: string)
    requires PlainElement(a)
    ensures Resolve(["", a, ""], true, []) == [a]
  {
    assert ["", a, ""][1..] == [a, ""];
    assert [a, ""][1..] == [""];
    assert [] + [a] == [a];
    assert Resolve([""], true, [a]) == [a];
  }

  lemma ResolveDir2(a: string, b: string)
    requires PlainElement(a) && PlainElement(b)
    ensures Resolve(["", a, b, ""], true, []) == [a, b]
  {
    assert ["", a, b, ""][1..] == [a, b, ""];
    assert [a, b, ""][1..] == [b, ""];
    assert [b, ""][1..] == [""];
    assert [] + [a] == [a];
    assert [a] + [b] == [a, b];
    assert Resolve([""], true, [a, b]) == [a, b];
    assert Resolve([b, ""], true, [a]) == [a, b];
  }

  /** `Clean` drops the trailing slash of a one-element rooted directory. */
  lemma CleanDir1(a: string)
    requires PlainElement(a)
    ensures Clean("/" + a + "/") == "/" + a
  {
    SegmentsOfDir1(a);
    ResolveDir1(a);
    assert Join([a]) == a;
  }

  /** `Clean` drops the trailing slash of a two-element rooted directory. */
  lemma CleanDir2(a: string, b: string)
    requires PlainElement(a) && PlainElement(b)
    ensures Clean("/" + a + "/" + b + "/") == "/" + a + "/" + b
  {
    SegmentsOfDir2(a, b);
    ResolveDir2(a, b);
    assert [a, b][1..] == [b];
    assert Join([a, b]) == a + "/" + b;
  }

  /** `Clean` drops the trailing slash of the link's directory `/l/<id>/`. */
  lemma CleanLinkDir(id: string)
    requires PlainElement(id)
    ensures Clean("/l/" + id + "/") == "/l/" + id
  {
    CleanDir2("l", id);
    assert "/l/" + id + "/" == "/" + "l" + "/" + id + "/";
    assert "/l/" + id == "/" + "l" + "/" + id;
  }

  /** For a link `/l/<id>/<pass>` as the share page builds it, the handler finds `id`. */
  lemma ExtractIdOfLink(id: string, pass: string)
    requires PlainElement(id) && '/' !in pass
    ensures ExtractId("/l/" + id + "/" + pass) == id
  {
    var p := "/l/" + id + "/" + pass;
    assert p == ("/l/" + id) + "/" + pass;
    SplitAtLastSlash("/l/" + id, pass);
    CleanLinkDir(id);
    assert "/l/" + id == "/l" + "/" + id;
    SplitAtLastSlash("/l", id);
    ExtractIdSteps(p, "/l/" + id + "/", "/l/" + id, id);
  }

  /** `Clean` turns the bare link directory `/l/` into `/l`. */
  lemma CleanBareLinkDir()
    ensures Clean("/l/") == "/l"
  {
    CleanDir1("l");
    assert "/" + "l" + "/" == "/l/";
    assert "/" + "l" == "/l";
  }

  /** A link without the password element, `/l/<id>`, makes the handler look up "l". */
  lemma ExtractIdWithoutPass(id: string)
    requires '/' !in id
    ensures ExtractId("/l/" + id) == "l"
  {
    var p := "/l/" + id;
    assert p == "/l" + "/" + id;
    SplitAtLastSlash("/l", id);
    assert Split(p).0 == "/l/";
    CleanBareLinkDir();
    assert "/l" == "" + "/" + "l";
    SplitAtLastSlash("", "l");
    ExtractIdSteps(p, "/l/", "/l", "l");
  }

  /** For a link `/l/<id>/<pass>` the id extraction goes through `/l/<id>/` and `/l/<id>`. */
  lemma ExtractIdSteps(p: string, rest: string, cleaned: string, id: string)
    requires Split(p).0 == rest && Clean(rest) == cleaned && Split(cleaned).1 == id
    ensures ExtractId(p) == id
  {
  }
}
