/**
  URI resolution (`parse_uri`): a request target becomes a file name under
  the document root "." and a CGI argument string, tagged static or dynamic.
  A target is dynamic when "cgi-bin" occurs anywhere in it, not only as its
  first path segment.
*/
module Uri {
  import opened Wrappers
  import opened CString

  const CGI_MARKER := "cgi-bin"
  const DEFAULT_DOCUMENT := "home.html"

  /**
    The three results of `parse_uri`: its return value (1 static, 0 dynamic)
    as `isStatic`, and what it copies into the caller's `filename` and
    `cgiargs` buffers.
  */
  datatype ParsedUri = ParsedUri(isStatic: bool, filename: string, cgiargs: string)

  /**
    `parse_uri(uri, filename, cgiargs)`. The URI must not be empty: the
    static branch reads its last character.
  */
  function ParseUri(uri: string): (r: ParsedUri)
    requires uri != []
    ensures r.isStatic <==> !Contains(uri, CGI_MARKER)
    ensures r.isStatic ==>
      && r.cgiargs == ""
      && r.filename == "." + uri + (if uri[|uri| - 1] == '/' then DEFAULT_DOCUMENT else "")
    ensures !r.isStatic && '?' !in uri ==>
      r.filename == "." + uri && r.cgiargs == ""
    ensures !r.isStatic && '?' in uri ==>
      exists k: nat :: FirstAt(uri, '?', k) && r.filename == "." + uri[..k] && r.cgiargs == uri[k + 1..]
  {
    if !Contains(uri, CGI_MARKER) then
      var filename := "." + uri;
      ParsedUri(true, if uri[|uri| - 1] == '/' then filename + DEFAULT_DOCUMENT else filename, "")
    else
      match FirstIndex(uri, '?')
      case Some(k) => ParsedUri(false, "." + uri[..k], uri[k + 1..])
      case None => ParsedUri(false, "." + uri, "")
  }

  /** The resolved file name always starts with the document root ".". */
  lemma FilenameUnderRoot(uri: string)
    requires uri != []
    ensures ParseUri(uri).filename != [] && ParseUri(uri).filename[0] == '.'
  {
    var r := ParseUri(uri);
    if !r.isStatic && '?' in uri {
      var k: nat :| FirstAt(uri, '?', k) && r.filename == "." + uri[..k] && r.cgiargs == uri[k + 1..];
      assert r.filename[0] == '.';
    }
  }

  /**
    Dynamic round trip: with a '?' in the target, the target is the file name
    without its leading "." joined to the arguments by that '?'. The file
    name holds no '?'; the arguments may hold more of them.
  */
  lemma DynamicRoundTrip(uri: string)
    requires uri != [] && Contains(uri, CGI_MARKER) && '?' in uri
    ensures uri == ParseUri(uri).filename[1..] + "?" + ParseUri(uri).cgiargs
    ensures '?' !in ParseUri(uri).filename
  {
    var r := ParseUri(uri);
    var k: nat :| FirstAt(uri, '?', k) && r.filename == "." + uri[..k] && r.cgiargs == uri[k + 1..];
    assert r.filename[1..] == uri[..k];
    assert uri == uri[..k] + [uri[k]] + uri[k + 1..];
    assert '.' != '?';
  }

  /** "cgi-bin" in the middle of a path, or inside a file name, still routes to the dynamic branch. */
  lemma MarkerAnywhereIsDynamic(before: string, after: string)
    ensures !ParseUri(before + CGI_MARKER + after).isStatic
  {
    ContainsInfix(before, CGI_MARKER, after);
  }

  /** A target naming a directory (ending in '/') is served its default document. */
  lemma DirectoryGetsDefaultDocument(dir: string)
    requires !Contains(dir + "/", CGI_MARKER)
    ensures ParseUri(dir + "/") == ParsedUri(true, "." + dir + "/" + DEFAULT_DOCUMENT, "")
  {
  }

  /** The site root resolves to ./home.html. */
  lemma RootIsHomePage()
    ensures ParseUri("/") == ParsedUri(true, "./home.html", "")
  {
    ContainsIff("/", CGI_MARKER);
  }

  /**
    Only the first '?' splits: a program path free of '?' followed by "?" and
    any arguments, further '?' included, runs that path with those arguments.
  */
  lemma ArgumentsAfterFirstQuestionMark(path: string, args: string)
    requires Contains(path, CGI_MARKER) && '?' !in path
    ensures ParseUri(path + "?" + args) == ParsedUri(false, "." + path, args)
  {
    var uri := path + "?" + args;
    ContainsIff(path, CGI_MARKER);
    var i: nat :| OccursAt(path, CGI_MARKER, i);
    assert uri[i..i + |CGI_MARKER|] == path[i..i + |CGI_MARKER|];
    ContainsAt(uri, CGI_MARKER, i);
    var r := ParseUri(uri);
    var k: nat :| FirstAt(uri, '?', k) && r.filename == "." + uri[..k] && r.cgiargs == uri[k + 1..];
    assert forall j :: 0 <= j < |path| ==> uri[j] == path[j];
    assert FirstAt(uri, '?', |path|);
    FirstAtUnique(uri, '?', k, |path|);
    assert uri[..|path|] == path;
    assert uri[|path| + 1..] == args;
  }
}
