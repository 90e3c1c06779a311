/**
  Handling one connection (`doit`): read the request line, refuse methods
  other than GET, skip the headers, resolve the URI, look the file up, check
  its permissions and serve it statically or through a CGI program. Every
  check that fails ends the request with an error page and nothing else.
*/
module Tiny {
  import opened CString
  import opened Uri
  import opened Response
  import opened Request

  /** The parts of `struct stat` the server inspects. */
  datatype FileInfo = FileInfo(isRegular: bool, ownerRead: bool, ownerExec: bool, size: nat)

  /** What `stat` reports for each path; a path outside the map makes `stat` fail. */
  type FileSystem = map<string, FileInfo>

  /** How a request ended. */
  datatype Outcome =
    | NoResponse
    | ClientFailure(cause: string, errnum: string, shortmsg: string, longmsg: string)
    | StaticContent(filename: string, filesize: nat)
    | DynamicContent(launch: CgiLaunch)

  /**
    The text written to the connection for an outcome (for static content,
    the header block; the file's bytes follow it).
  */
  function Written(outcome: Outcome): string {
    match outcome
    case NoResponse => ""
    case ClientFailure(cause, errnum, shortmsg, longmsg) => ErrorResponse(cause, errnum, shortmsg, longmsg)
    case StaticContent(filename, filesize) => StaticHead(filename, filesize)
    case DynamicContent(_) => DynamicPrefix()
  }

  /** The status code and reason phrase that open the response to an outcome. */
  function Status(outcome: Outcome): (string, string)
    requires !outcome.NoResponse?
  {
    match outcome
    case ClientFailure(_, errnum, shortmsg, _) => (errnum, shortmsg)
    case StaticContent(_, _) => ("200", "OK")
    case DynamicContent(_) => ("200", "OK")
  }

  /** Every response begins with its HTTP/1.0 status line. */
  lemma ResponseStartsWithStatus(outcome: Outcome)
    requires !outcome.NoResponse?
    ensures StatusLine(Status(outcome).0, Status(outcome).1) <= Written(outcome)
  {
    match outcome
    case ClientFailure(cause, errnum, shortmsg, longmsg) =>
      ErrorResponseStatus(cause, errnum, shortmsg, longmsg);
    case StaticContent(filename, filesize) =>
      var hs := StaticHeaders(filename, filesize);
      assert StaticHead(filename, filesize) == StatusLine("200", "OK") + (HeaderLines(hs) + CRLF);
    case DynamicContent(_) =>
      DynamicPrefixOpensStaticForm("", 0);
  }

  /** An error page names its cause and repeats its status in the body, after the header block. */
  lemma ErrorPageNamesCause(outcome: Outcome)
    requires outcome.ClientFailure?
    ensures Contains(Written(outcome), outcome.cause)
    ensures Contains(Written(outcome), outcome.errnum)
    ensures Contains(Written(outcome), outcome.longmsg)
  {
    var body := ErrorBody(outcome.cause, outcome.errnum, outcome.shortmsg, outcome.longmsg);
    var head := Head(outcome.errnum, outcome.shortmsg, ErrorHeaders(body));
    ErrorResponseFramed(outcome.cause, outcome.errnum, outcome.shortmsg, outcome.longmsg);
    ErrorBodyMentions(outcome.cause, outcome.errnum, outcome.shortmsg, outcome.longmsg);
    ContainsRight(head, body, outcome.cause);
    ContainsRight(head, body, outcome.errnum);
    ContainsRight(head, body, outcome.longmsg);
  }

  /**
    The inputs on which the C code is defined: a request line with at least
    a method token, and for GET also a URI token and a blank line ending the
    headers. With fewer tokens `sscanf` leaves buffers unset; without the
    blank line `read_requesthdrs` never returns.
  */
  predicate Serviceable(lines: seq<string>) {
    lines != [] ==>
      var toks := RequestTokens(lines[0]);
      |toks| >= 1 && (IsGet(toks[0]) ==> |toks| >= 2 && HasBlankLine(lines, 1))
  }

  /**
    The tail of `doit` once `stat` has succeeded: check the permission the
    content needs (read for a static file, execute for a CGI program), then
    serve it.
  */
  method ServeFound(parsed: ParsedUri, sbuf: FileInfo, environ: map<string, string>)
    returns (outcome: Outcome, written: string)
    ensures written == Written(outcome)
    ensures parsed.isStatic ==>
      outcome == if sbuf.isRegular && sbuf.ownerRead
                 then StaticContent(parsed.filename, sbuf.size)
                 else ClientFailure(parsed.filename, "403", "Forbidden", "Tiny couldn't read the file")
    ensures !parsed.isStatic && !(sbuf.isRegular && sbuf.ownerExec) ==>
      outcome == ClientFailure(parsed.filename, "403", "Forbidden", "Tiny couldn't run the CGI program")
    ensures !parsed.isStatic && sbuf.isRegular && sbuf.ownerExec ==>
      && outcome.DynamicContent?
      && outcome.launch.program == parsed.filename
      && outcome.launch.argv == []
      && outcome.launch.env == environ[QUERY_STRING := parsed.cgiargs]
  {
    var filename := parsed.filename;
    if parsed.isStatic {
      if !sbuf.isRegular || !sbuf.ownerRead {
        written := ClientError(filename, "403", "Forbidden", "Tiny couldn't read the file");
        outcome := ClientFailure(filename, "403", "Forbidden", "Tiny couldn't read the file");
        return;
      }
      written := ServeStatic(filename, sbuf.size);
      outcome := StaticContent(filename, sbuf.size);
    } else {
      if !sbuf.isRegular || !sbuf.ownerExec {
        written := ClientError(filename, "403", "Forbidden", "Tiny couldn't run the CGI program");
        outcome := ClientFailure(filename, "403", "Forbidden", "Tiny couldn't run the CGI program");
        return;
      }
      var launch;
      written, launch := ServeDynamic(filename, parsed.cgiargs, environ);
      ChildEnvironment(environ, parsed.cgiargs, launch.env);
      outcome := DynamicContent(launch);
    }
  }

  /**
    `doit(fd)`, with the connection as the lines it delivers. Returns how the
    request ended, how many lines were read and what was written.
  */
  method Doit(lines: seq<string>, fs: FileSystem, environ: map<string, string>)
    returns (outcome: Outcome, consumed: nat, written: string)
    requires Serviceable(lines)
    ensures written == Written(outcome)
    ensures consumed <= |lines|
    ensures lines == [] <==> outcome == NoResponse
    ensures lines == [] ==> consumed == 0
    ensures lines != [] ==>
      var toks := RequestTokens(lines[0]);
      !IsGet(toks[0]) ==>
        && consumed == 1
        && outcome == ClientFailure(toks[0], "501", "Not implemented", "Tiny does not implement this method")
    ensures lines != [] ==>
      var toks := RequestTokens(lines[0]);
      IsGet(toks[0]) ==>
        var parsed := ParseUri(toks[1]);
        var name := parsed.filename;
        && HeadersEnd(lines, 1, consumed)
        && (name !in fs ==>
              outcome == ClientFailure(name, "404", "Not found", "Tiny couldn't find this file"))
        && (name in fs && parsed.isStatic ==>
              outcome == if fs[name].isRegular && fs[name].ownerRead
                         then StaticContent(name, fs[name].size)
                         else ClientFailure(name, "403", "Forbidden", "Tiny couldn't read the file"))
        && (name in fs && !parsed.isStatic && !(fs[name].isRegular && fs[name].ownerExec) ==>
              outcome == ClientFailure(name, "403", "Forbidden", "Tiny couldn't run the CGI program"))
        && (name in fs && !parsed.isStatic && fs[name].isRegular && fs[name].ownerExec ==>
              && outcome.DynamicContent?
              && outcome.launch.program == name
              && outcome.launch.argv == []
              && outcome.launch.env == environ[QUERY_STRING := parsed.cgiargs])
  {
    if |lines| == 0 {
      outcome, consumed, written := NoResponse, 0, "";
      return;
    }
    var buf := lines[0];
    consumed := 1;
    var toks := RequestTokens(buf);
    var verb := toks[0];
    if !IsGet(verb) {
      written := ClientError(verb, "501", "Not implemented", "Tiny does not implement this method");
      outcome := ClientFailure(verb, "501", "Not implemented", "Tiny does not implement this method");
      return;
    }
    var uri := toks[1];
    consumed := ReadRequestHeaders(lines, 1);

    var parsed := ParseUri(uri);
    var filename := parsed.filename;
    if filename !in fs {
      written := ClientError(filename, "404", "Not found", "Tiny couldn't find this file");
      outcome := ClientFailure(filename, "404", "Not found", "Tiny couldn't find this file");
      return;
    }
    outcome, written := ServeFound(parsed, fs[filename], environ);
  }

  /**
    A request for the site root with one header line and the blank line: the
    contract of `Doit` alone decides that ./home.html is served with its size
    and that all three lines are read.
  */
  method RootRequest(lines: seq<string>, size: nat) returns (outcome: Outcome, consumed: nat)
    requires |lines| == 3 && RequestTokens(lines[0]) == ["GET", "/", "HTTP/1.0"]
    requires !IsBlankLine(lines[1]) && IsBlankLine(lines[2])
    ensures outcome == StaticContent("./home.html", size)
    ensures consumed == 3
  {
    var fs := map["./home.html" := FileInfo(true, true, false, size)];
    RootIsHomePage();
    assert HasBlankLine(lines, 1);
    var written;
    outcome, consumed, written := Doit(lines, fs, map[]);
    assert HeadersEnd(lines, 1, 3);
    HeadersEndUnique(lines, 1, consumed, 3);
  }

  /** A browser's request for / with a Host header meets the requirements of `RootRequest`. */
  method HomePageRequest() {
    var line := "GET" + " " + "/" + " " + "HTTP/1.0" + "\r\n";
    RequestLineRoundTrip("GET", "/", "HTTP/1.0");
    var lines := [line, "Host: localhost\r\n", BLANK_LINE];
    assert IsBlankLine(lines[2]);
    assert !IsBlankLine(lines[1]);
    var outcome, consumed := RootRequest(lines, 120);
  }

  /** A POST is refused with 501 after reading the request line only; its headers and body stay unread. */
  method PostRequest() {
    var line := "POST" + " " + "/cgi-bin/adder" + " " + "HTTP/1.0" + "\r\n";
    RequestLineRoundTrip("POST", "/cgi-bin/adder", "HTTP/1.0");
    var lines := [line, "Content-Length: 7\r\n", BLANK_LINE, "x=3&y=4"];
    var outcome, consumed, written := Doit(lines, map[], map[]);
    assert outcome == ClientFailure("POST", "501", "Not implemented", "Tiny does not implement this method");
    assert consumed == 1;
  }
}

