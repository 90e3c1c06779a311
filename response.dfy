/**
  The text the server writes itself: the error page of `clienterror`, the
  header block of `serve_static` (the file's bytes follow it), and the two
  header lines `serve_dynamic` sends before the CGI program takes over the
  connection. Each C function builds its text by successive appends; each is
  specified here against one serializer of an ordered header list, in the
  form of section 6 of RFC 1945:
    "HTTP/1.0" SP Status-Code SP Reason-Phrase CRLF, header lines, CRLF.
*/
module Response {
  import opened Wrappers
  import opened CString
  import opened FileType

  datatype Header = Header(name: string, value: string)

  const CRLF := "\r\n"
  const SERVER := Header("Server", "Tiny Web Server")

  /** The Status-Line of section 6.1 of RFC 1945. */
  function StatusLine(code: string, reason: string): string {
    "HTTP/1.0 " + code + " " + reason + CRLF
  }

  /** One header line: "name: value" CRLF. */
  function Line(h: Header): string {
    h.name + ": " + h.value + CRLF
  }

  /** Each header's line, in list order; built from the left, as the C code appends. */
  function HeaderLines(hs: seq<Header>): string {
    if hs == [] then "" else HeaderLines(hs[..|hs| - 1]) + Line(hs[|hs| - 1])
  }

  /** A complete header block: status line, the headers, and the blank line that ends it. */
  function Head(code: string, reason: string, hs: seq<Header>): string {
    StatusLine(code, reason) + HeaderLines(hs) + CRLF
  }

  /** Serializing two header lists one after the other serializes their concatenation. */
  lemma {:induction false} HeaderLinesAppend(a: seq<Header>, b: seq<Header>)
    ensures HeaderLines(a + b) == HeaderLines(a) + HeaderLines(b)
    decreases |b|
  {
    if b == [] {
      assert a + b == a;
    } else {
      var c := b[..|b| - 1];
      assert (a + b)[..|a + b| - 1] == a + c;
      assert (a + b)[|a + b| - 1] == b[|b| - 1];
      HeaderLinesAppend(a, c);
      assert HeaderLines(a) + HeaderLines(c) + Line(b[|b| - 1])
          == HeaderLines(a) + (HeaderLines(c) + Line(b[|b| - 1]));
    }
  }

  /**
    What a client reads from the first "Content-length" header: its decimal
    value, or nothing when the header is missing or is not a plain run of
    digits (a negative number, say).
  */
  function ContentLength(hs: seq<Header>): Option<nat> {
    if hs == [] then None
    else if hs[0].name == "Content-length" then
      if hs[0].value != [] && AllDigits(hs[0].value) then Some(DecimalValue(hs[0].value)) else None
    else ContentLength(hs[1..])
  }

  // ---------------------------------------------------------------------
  // clienterror

  /** The fixed error page; the adjacent C literals make the attribute `bgcolor=ffffff`, unquoted. */
  function ErrorBody(cause: string, errnum: string, shortmsg: string, longmsg: string): string {
    "<html><title>Tiny Error</title>" + "<body bgcolor=ffffff>\r\n"
    + errnum + ": " + shortmsg + "\r\n"
    + "<p>" + longmsg + ": " + cause + "\r\n"
    + "<hr><em>The Tiny Web server</em>\r\n"
  }

  function ErrorHeaders(body: string): seq<Header> {
    [Header("Content-Type", "text/html; charset=utf-8"), Header("Content-length", NatToString(|body|))]
  }

  /** Everything `clienterror` writes: the header block for the error, then the page. */
  function ErrorResponse(cause: string, errnum: string, shortmsg: string, longmsg: string): string {
    var body := ErrorBody(cause, errnum, shortmsg, longmsg);
    Head(errnum, shortmsg, ErrorHeaders(body)) + body
  }

  /**
    `clienterror(fd, cause, errnum, shortmsg, longmsg)`: the page is built by
    successive appends, then status line, content type, content length with
    the blank line, and the page are written in that order.
  */
  method ClientError(cause: string, errnum: string, shortmsg: string, longmsg: string)
    returns (written: string)
    ensures written == ErrorResponse(cause, errnum, shortmsg, longmsg)
  {
    var body := "<html><title>Tiny Error</title>";
    body := body + "<body bgcolor=ffffff>\r\n";
    body := body + errnum + ": " + shortmsg + "\r\n";
    body := body + "<p>" + longmsg + ": " + cause + "\r\n";
    body := body + "<hr><em>The Tiny Web server</em>\r\n";

    var buf := "HTTP/1.0 " + errnum + " " + shortmsg + "\r\n";
    written := buf;
    buf := "Content-Type: text/html; charset=utf-8\r\n";
    written := written + buf;
    buf := "Content-length: " + NatToString(|body|) + "\r\n\r\n";
    written := written + buf;
    written := written + body;
    ErrorResponseText(cause, errnum, shortmsg, longmsg);
  }

  /** The error response spelt out piece by piece as `clienterror` writes it. */
  lemma ErrorResponseText(cause: string, errnum: string, shortmsg: string, longmsg: string)
    ensures var body := ErrorBody(cause, errnum, shortmsg, longmsg);
      ErrorResponse(cause, errnum, shortmsg, longmsg)
      == ("HTTP/1.0 " + errnum + " " + shortmsg + "\r\n")
         + "Content-Type: text/html; charset=utf-8\r\n"
         + ("Content-length: " + NatToString(|body|) + "\r\n\r\n")
         + body
  {
    var body := ErrorBody(cause, errnum, shortmsg, longmsg);
    var hs := ErrorHeaders(body);
    TwoHeaders(hs[0], hs[1]);
    assert hs == [hs[0], hs[1]];
    ErrorLines(NatToString(|body|));
    var status := StatusLine(errnum, shortmsg);
    assert status == "HTTP/1.0 " + errnum + " " + shortmsg + "\r\n";
    assert ErrorResponse(cause, errnum, shortmsg, longmsg) == status + (Line(hs[0]) + (Line(hs[1]) + CRLF)) + body;
  }

  lemma ErrorLines(length: string)
    ensures Line(Header("Content-Type", "text/html; charset=utf-8")) == "Content-Type: text/html; charset=utf-8\r\n"
    ensures Line(Header("Content-length", length)) + CRLF == "Content-length: " + length + "\r\n\r\n"
  {
    ContentTypeLine();
  }

  lemma ContentTypeLine()
    ensures Line(Header("Content-Type", "text/html; charset=utf-8")) == "Content-Type: text/html; charset=utf-8\r\n"
  {
    ContentTypeText();
  }

  lemma ContentTypeText()
    ensures "Content-Type" + ": " + "text/html; charset=utf-8" + "\r\n" == "Content-Type: text/html; charset=utf-8\r\n"
  {
  }

  lemma TwoHeaders(h0: Header, h1: Header)
    ensures HeaderLines([h0, h1]) + CRLF == Line(h0) + (Line(h1) + CRLF)
  {
    assert [h0, h1][..1] == [h0];
    assert [h0][..0] == [];
    assert HeaderLines([h0]) == Line(h0);
    assert HeaderLines([h0, h1]) == Line(h0) + Line(h1);
  }

  /** The error page's Content-length is the length of the page that follows the blank line. */
  lemma ErrorResponseFramed(cause: string, errnum: string, shortmsg: string, longmsg: string)
    ensures var body := ErrorBody(cause, errnum, shortmsg, longmsg);
      && ErrorResponse(cause, errnum, shortmsg, longmsg) == Head(errnum, shortmsg, ErrorHeaders(body)) + body
      && ContentLength(ErrorHeaders(body)) == Some(|body|)
  {
    DecimalRoundTrip(|ErrorBody(cause, errnum, shortmsg, longmsg)|);
  }

  /** The page names the status, the short message, the long message and the offending resource. */
  lemma ErrorBodyMentions(cause: string, errnum: string, shortmsg: string, longmsg: string)
    ensures var body := ErrorBody(cause, errnum, shortmsg, longmsg);
      && Contains(body, errnum) && Contains(body, shortmsg)
      && Contains(body, longmsg) && Contains(body, cause)
  {
    var b0 := "<html><title>Tiny Error</title>" + "<body bgcolor=ffffff>\r\n";
    var b1 := b0 + errnum;
    var b2 := b1 + ": " + shortmsg;
    var b3 := b2 + CRLF + "<p>" + longmsg;
    var b4 := b3 + ": " + cause;
    var tail := "<hr><em>The Tiny Web server</em>\r\n";
    assert ErrorBody(cause, errnum, shortmsg, longmsg) == b4 + CRLF + tail;
    ContainsEnd(b0, errnum);
    ContainsLeft(b1, ": " + shortmsg, errnum);
    assert b2 == b1 + (": " + shortmsg);
    ContainsEnd(b1 + ": ", shortmsg);
    ContainsLeft(b2, CRLF + "<p>" + longmsg, errnum);
    ContainsLeft(b2, CRLF + "<p>" + longmsg, shortmsg);
    assert b3 == b2 + (CRLF + "<p>" + longmsg);
    ContainsEnd(b2 + CRLF + "<p>", longmsg);
    assert b4 == b3 + (": " + cause);
    ContainsLeft(b3, ": " + cause, errnum);
    ContainsLeft(b3, ": " + cause, shortmsg);
    ContainsLeft(b3, ": " + cause, longmsg);
    ContainsEnd(b3 + ": ", cause);
    ContainsLeft(b4, CRLF + tail, errnum);
    ContainsLeft(b4, CRLF + tail, shortmsg);
    ContainsLeft(b4, CRLF + tail, longmsg);
    ContainsLeft(b4, CRLF + tail, cause);
    assert b4 + CRLF + tail == b4 + (CRLF + tail);
  }

  /** The error response opens with the status line "HTTP/1.0 <errnum> <shortmsg>". */
  lemma ErrorResponseStatus(cause: string, errnum: string, shortmsg: string, longmsg: string)
    ensures StatusLine(errnum, shortmsg) <= ErrorResponse(cause, errnum, shortmsg, longmsg)
  {
    var body := ErrorBody(cause, errnum, shortmsg, longmsg);
    assert ErrorResponse(cause, errnum, shortmsg, longmsg)
        == StatusLine(errnum, shortmsg) + (HeaderLines(ErrorHeaders(body)) + CRLF + body);
  }

  // ---------------------------------------------------------------------
  // serve_static (headers)

  /** The headers of a static response, in the order the C code appends them. */
  function StaticHeaders(filename: string, filesize: int): seq<Header> {
    [ SERVER,
      Header("Connection", "close"),
      Header("Content-length", IntToString(filesize)),
      Header("Content-type", GetFiletype(filename)) ]
  }

  function StaticHead(filename: string, filesize: int): string {
    Head("200", "OK", StaticHeaders(filename, filesize))
  }

  /**
    The header block `serve_static(fd, filename, filesize)` builds by
    successive appends and writes before the file's `filesize` bytes.
  */
  method ServeStatic(filename: string, filesize: int) returns (buf: string)
    ensures buf == StaticHead(filename, filesize)
  {
    var filetype := GetFiletype(filename);
    buf := "HTTP/1.0 200 OK\r\n";
    buf := buf + "Server: Tiny Web Server\r\n";
    buf := buf + "Connection: close\r\n";
    buf := buf + ("Content-length: " + IntToString(filesize) + "\r\n");
    buf := buf + ("Content-type: " + filetype + "\r\n\r\n");

    StaticHeadText(filename, filesize);
  }

  /** The static header block, spelt out line by line as `serve_static` appends it. */
  lemma StaticHeadText(filename: string, filesize: int)
    ensures StaticHead(filename, filesize)
         == "HTTP/1.0 200 OK\r\n" + "Server: Tiny Web Server\r\n" + "Connection: close\r\n"
            + ("Content-length: " + IntToString(filesize) + "\r\n")
            + ("Content-type: " + GetFiletype(filename) + "\r\n\r\n")
  {
    var hs := StaticHeaders(filename, filesize);
    FourHeaders(StatusLine("200", "OK"), hs[0], hs[1], hs[2], hs[3]);
    assert hs == [hs[0], hs[1], hs[2], hs[3]];
    LiteralLines(IntToString(filesize), GetFiletype(filename));
  }

  lemma LiteralLines(length: string, contentType: string)
    ensures StatusLine("200", "OK") == "HTTP/1.0 200 OK\r\n"
    ensures Line(SERVER) == "Server: Tiny Web Server\r\n"
    ensures Line(Header("Connection", "close")) == "Connection: close\r\n"
    ensures Line(Header("Content-length", length)) == "Content-length: " + length + "\r\n"
    ensures Line(Header("Content-type", contentType)) + CRLF == "Content-type: " + contentType + "\r\n\r\n"
  {
    StaticLiteralText();
  }

  lemma StaticLiteralText()
    ensures "HTTP/1.0 " + "200" + " " + "OK" + "\r\n" == "HTTP/1.0 200 OK\r\n"
    ensures "Server" + ": " + "Tiny Web Server" + "\r\n" == "Server: Tiny Web Server\r\n"
    ensures "Connection" + ": " + "close" + "\r\n" == "Connection: close\r\n"
    ensures "Content-length" + ": " == "Content-length: "
    ensures "Content-type" + ": " == "Content-type: "
    ensures "\r\n" + "\r\n" == "\r\n\r\n"
  {
  }

  /** A block of four headers is the four lines one after the other. */
  lemma FourHeaders(status: string, h0: Header, h1: Header, h2: Header, h3: Header)
    ensures status + HeaderLines([h0, h1, h2, h3]) + CRLF
         == status + Line(h0) + Line(h1) + Line(h2) + (Line(h3) + CRLF)
  {
    assert [h0, h1, h2, h3][..3] == [h0, h1, h2];
    assert [h0, h1, h2][..2] == [h0, h1];
    assert [h0, h1][..1] == [h0];
    assert [h0][..0] == [];
    assert HeaderLines([h0]) == Line(h0);
    assert HeaderLines([h0, h1]) == Line(h0) + Line(h1);
    assert HeaderLines([h0, h1, h2]) == Line(h0) + Line(h1) + Line(h2);
    assert HeaderLines([h0, h1, h2, h3]) == Line(h0) + Line(h1) + Line(h2) + Line(h3);
  }

  /** A client reads the static Content-length from the third header. */
  lemma StaticContentLength(filename: string, filesize: int)
    ensures var value := IntToString(filesize);
      ContentLength(StaticHeaders(filename, filesize))
      == if value != [] && AllDigits(value) then Some(DecimalValue(value)) else None
  {
    var hs := StaticHeaders(filename, filesize);
    assert hs[0].name != "Content-length" by {
      assert |hs[0].name| == 6;
    }
    assert hs[1..][0].name != "Content-length" by {
      assert |hs[1].name| == 10;
    }
    assert ContentLength(hs) == ContentLength(hs[1..]);
    assert hs[1..][1..] == hs[2..];
    assert ContentLength(hs[1..]) == ContentLength(hs[2..]);
    assert hs[2..][0] == hs[2];
  }

  /** For every file, the static Content-length reads back as the file size. */
  lemma StaticContentLengthIsFileSize(filename: string, filesize: nat)
    ensures ContentLength(StaticHeaders(filename, filesize)) == Some(filesize)
  {
    DecimalRoundTrip(filesize);
    StaticContentLength(filename, filesize);
  }

  /**
    The header block as the C code sends it: `doit` passes the file's
    `st_size` to the `int filesize` parameter, which keeps only its low 32
    bits as a signed number. For files below 2^31 bytes it agrees with the
    header announcing the true size.
  */
  function StaticHeadAsWritten(filename: string, stSize: nat): (r: string)
    ensures stSize <= INT_MAX ==> r == StaticHead(filename, stSize)
  {
    StaticHead(filename, ToCInt(stSize))
  }

  /**
    The discrepancy: a file of 2^32 + 10 bytes is announced as 10 bytes long,
    and one of 2^31 bytes gets "Content-length: -2147483648", which no client
    reads as a length.
  */
  lemma LargeFileLengthWraps(filename: string)
    ensures StaticHeadAsWritten(filename, 0x1_0000_000A) == StaticHead(filename, 10)
    ensures ContentLength(StaticHeaders(filename, ToCInt(0x1_0000_000A))) == Some(10)
    ensures ContentLength(StaticHeaders(filename, ToCInt(0x8000_0000))) == None
  {
    assert ToCInt(0x1_0000_000A) == 10;
    StaticContentLengthIsFileSize(filename, 10);
    assert ToCInt(0x8000_0000) == INT_MIN;
    NegativeLengthUnreadable(filename, INT_MIN);
  }

  /** A negative `filesize` prints a minus sign, so the Content-length header reads as no length at all. */
  lemma NegativeLengthUnreadable(filename: string, filesize: int)
    requires filesize < 0
    ensures ContentLength(StaticHeaders(filename, filesize)) == None
  {
    StaticContentLength(filename, filesize);
    var value := IntToString(filesize);
    assert value[0] == '-' && !IsDigit(value[0]);
  }

  // ---------------------------------------------------------------------
  // serve_dynamic (headers)

  /** The start of a header block that the CGI program must finish. */
  function DynamicPrefix(): string {
    StatusLine("200", "OK") + HeaderLines([SERVER])
  }

  /**
    What the forked child is started with: `execve(program, argv, env)`
    where `env` is the server's environment after `setenv("QUERY_STRING",
    cgiargs, 1)`. The child's standard output is the connection.
  */
  datatype CgiLaunch = CgiLaunch(program: string, argv: seq<string>, env: map<string, string>)

  const QUERY_STRING := "QUERY_STRING"

  /**
    `serve_dynamic`: write the status line and the server header, then hand
    the connection to the CGI program with the arguments in QUERY_STRING and
    an empty argument vector.
  */
  method ServeDynamic(filename: string, cgiargs: string, environ: map<string, string>)
    returns (written: string, launch: CgiLaunch)
    ensures written == DynamicPrefix()
    ensures launch.program == filename && launch.argv == []
    ensures QUERY_STRING in launch.env && launch.env[QUERY_STRING] == cgiargs
    ensures forall v :: v != QUERY_STRING ==> (v in launch.env <==> v in environ)
    ensures forall v :: v != QUERY_STRING && v in environ ==> launch.env[v] == environ[v]
  {
    var buf := "HTTP/1.0 200 OK\r\n";
    written := buf;
    buf := "Server: Tiny Web Server\r\n";
    written := written + buf;
    DynamicPrefixText();
    var env := environ[QUERY_STRING := cgiargs];
    launch := CgiLaunch(filename, [], env);
  }

  /**
    The child's environment is determined: it is the server's with
    QUERY_STRING set to the arguments, whether or not the server had one.
  */
  lemma ChildEnvironment(environ: map<string, string>, cgiargs: string, env: map<string, string>)
    requires QUERY_STRING in env && env[QUERY_STRING] == cgiargs
    requires forall v :: v != QUERY_STRING ==> (v in env <==> v in environ)
    requires forall v :: v != QUERY_STRING && v in environ ==> env[v] == environ[v]
    ensures env == environ[QUERY_STRING := cgiargs]
  {
  }

  lemma DynamicPrefixText()
    ensures DynamicPrefix() == "HTTP/1.0 200 OK\r\n" + "Server: Tiny Web Server\r\n"
  {
    assert [SERVER][..0] == [];
    assert HeaderLines([SERVER]) == Line(SERVER);
    LiteralLines("", "");
  }

  /** A header list that starts with the Server header is written after the dynamic prefix. */
  lemma ServerFirst(hs: seq<Header>)
    requires hs != [] && hs[0] == SERVER
    ensures Head("200", "OK", hs) == DynamicPrefix() + (HeaderLines(hs[1..]) + CRLF)
  {
    assert hs == [SERVER] + hs[1..];
    HeaderLinesAppend([SERVER], hs[1..]);
  }

  /**
    A dynamic response starts as a static one does, and leaves the header
    block open: it ends with the server header line, not with a blank line.
  */
  lemma DynamicPrefixOpensStaticForm(filename: string, filesize: int)
    ensures DynamicPrefix() < StaticHead(filename, filesize)
    ensures DynamicPrefix() == StatusLine("200", "OK") + Line(SERVER)
  {
    var hs := StaticHeaders(filename, filesize);
    ServerFirst(hs);
    assert |HeaderLines(hs[1..]) + CRLF| > 0;
    assert [SERVER][..0] == [];
    assert HeaderLines([SERVER]) == HeaderLines([]) + Line(SERVER);
  }

}
