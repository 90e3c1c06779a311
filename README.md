# Tiny web server: request handling, modelled in Dafny

Tiny (`tiny/tiny.c`) is a small iterative HTTP/1.0 server that serves GET
requests. For each connection, `doit`:

1. reads the request line and splits it into method, URI and version;
2. refuses any method other than GET;
3. reads and discards the header lines up to the blank line;
4. resolves the URI to a file under the document root `.`, either as static
   content or as a CGI program under `cgi-bin` with an argument string;
5. checks with `stat` that the file exists and may be read (static content)
   or executed (CGI);
6. writes an error page, or the static header block followed by the file, or
   the first two header lines followed by the CGI program's own output.

This project models that decision logic and every piece of text the server
writes itself. Each piece is proved against a specification:

| module | models | form |
|---|---|---|
| `Wrappers` | `Option` | datatype |
| `CString` | the libc routines the code relies on: the C string a buffer holds (up to its first NUL), `strstr`, `index`, `strcasecmp`, `isspace`, the `%s` of `sscanf`, the `%d` of `sprintf`, and conversion to a 32-bit `int` | functions and lemmas |
| `Uri` | `parse_uri` | function returning a datatype, and lemmas |
| `FileType` | `get_filetype` | function, a reference table lookup, and lemmas |
| `Response` | the text of `clienterror`, `serve_static` (headers) and `serve_dynamic` (headers and the CGI hand-off) | methods built by successive appends, as the C code builds them, each proved equal to one serializer of status line and ordered header lines; lemmas about that serializer |
| `Request` | the request-line tokens, the GET check, and the `read_requesthdrs` loop | functions, lemmas, and a method with a loop |
| `Tiny` | `doit` | a method with early returns whose contract states which outcome each request gets, and lemmas about the outcomes |

Inputs the C code gets from the operating system are parameters:

- The connection is the sequence of lines that successive `Rio_readlineb`
  calls return, each with its line ending. An empty sequence is a first read
  that returns nothing.
- `stat` is a map from path to the fields the server inspects: regular file,
  owner-read bit, owner-execute bit, size. A path missing from the map makes
  `stat` fail.
- The server's environment is a map, which `serve_dynamic` hands to the CGI
  program.

A line may hold a NUL character. `sscanf` and `strcmp` read their buffers as
C strings, so they see only the characters before the first NUL
(`CString.CStr`); the model scans and compares that part of each line.

Content type is chosen by substring containment (`strstr`), as the code
does, not by file-name suffix. The comment above `get_filetype`
(tiny/tiny.c:201) says the type is set by file extension; the code differs,
and the model follows the code. So `./a.html.bak` is served as `text/html`,
and `./photo.jpeg` as `text/plain`. In the same way, a URI is dynamic when `cgi-bin` occurs
anywhere in it.

## Model

| member | source | states |
|---|---|---|
| CString.ContainsIff | tiny/tiny.c:153 | the `strstr` scan finds a pattern exactly when it occurs at some index of the string |
| CString.FirstIndex | tiny/tiny.c:163 | `index` returns nothing exactly when the character is absent, and otherwise the position of its first occurrence |
| CString.CStr | tiny/tiny.c:85 | the C string a buffer holds is its longest prefix without NUL: the whole buffer when it has no NUL, and otherwise the part before the first NUL |
| CString.CStrStopsAtNul | tiny/tiny.c:85 | whatever follows a NUL is not part of the C string |
| CString.EqualsIgnoreCase | tiny/tiny.c:86 | `strcasecmp` finds identical strings equal, and finds equal only strings of the same length |
| CString.ScanTokens | tiny/tiny.c:85 | `sscanf` with `count` `%s` conversions stores at most `count` tokens, and every token is non-empty and free of white space |
| CString.ScanSkipsRun | tiny/tiny.c:85 | a `%s` conversion skips a whole run of white space before its token |
| CString.ScanSplit | tiny/tiny.c:85 | the first token scanned stands between a run of white space and a remainder that is empty or starts with white space, and the other tokens are scanned from that remainder |
| CString.NatToString | tiny/tiny.c:132 | `%d` of a non-negative number is a non-empty string of decimal digits with no leading zero |
| CString.DecimalRoundTrip | tiny/tiny.c:132 | reading back the digits `%d` printed gives the printed number, so a Content-length value is the length it announces |
| CString.IntToString | tiny/tiny.c:187 | `%d` prints a non-negative number as decimal digits that read back as the number, and a negative one as `-` followed by the digits of its magnitude |
| CString.NatToStringInjective | tiny/tiny.c:187 | different lengths are printed differently |
| CString.ToCInt | tiny/tiny.c:178 | passing a wider integer to an `int` parameter gives a value in the 32-bit range, congruent to the original modulo 2^32, and unchanged when the original is in range |
| Uri.ParseUri | tiny/tiny.c:150-175 | static exactly when `cgi-bin` does not occur in the URI. Static: no arguments, and the file name is `.` + URI, with `home.html` appended exactly when the URI ends in `/`. Dynamic without `?`: file name `.` + URI, no arguments. Dynamic with `?`: the URI splits at its first `?` into file name and arguments |
| Uri.FilenameUnderRoot | tiny/tiny.c:155-156 | every resolved file name is non-empty and starts with the document root `.` |
| Uri.DynamicRoundTrip | tiny/tiny.c:163-172 | with a `?` in a dynamic URI, the URI is the file name without its `.`, then `?`, then the arguments; the file name holds no `?` |
| Uri.MarkerAnywhereIsDynamic | tiny/tiny.c:153 | `cgi-bin` anywhere in the URI, mid-path or inside a file name, makes the request dynamic |
| Uri.DirectoryGetsDefaultDocument | tiny/tiny.c:157-159 | a static URI ending in `/` resolves to that directory's `home.html` |
| Uri.RootIsHomePage | tiny/tiny.c:153-160 | `/` resolves to `./home.html`, static, with no arguments |
| Uri.ArgumentsAfterFirstQuestionMark | tiny/tiny.c:163-172 | a `cgi-bin` path without `?`, then `?`, then any arguments (further `?` included), runs exactly that path with exactly those arguments |
| FileType.FirstMatch | tiny/tiny.c:202-213 | the reference table lookup yields one of the table's types or the default |
| FileType.FirstMatchIsFirst | tiny/tiny.c:203-210 | a rule whose fragment occurs, with no earlier rule's fragment occurring, decides the type |
| FileType.FirstMatchDefault | tiny/tiny.c:211-212 | when no fragment occurs, the type is `text/plain` |
| FileType.GetFiletypeIsTableLookup | tiny/tiny.c:202-213 | the if-chain of `get_filetype` equals the first-match lookup over `.html`, `.gif`, `.png`, `.jpg` in that order |
| FileType.GetFiletype | tiny/tiny.c:202-213 | `get_filetype` yields one of the five types; `text/html` exactly when `.html` occurs in the name; `text/plain` exactly when none of the four fragments occurs |
| FileType.FragmentAnywhereSelects | tiny/tiny.c:203-210 | a rule's fragment anywhere in the name selects its type when no earlier fragment occurs |
| FileType.HtmlWins | tiny/tiny.c:203-204 | `.html` anywhere in the name gives `text/html`, whatever else the name holds |
| FileType.NoDotIsPlainText | tiny/tiny.c:211-212 | a name with no dot after the document root is `text/plain` |
| Response.ClientError | tiny/tiny.c:117-135 | the text `clienterror` writes by successive appends is the status line, the Content-Type and Content-length headers, a blank line, and the error body |
| Response.ErrorResponseFramed | tiny/tiny.c:128-134 | the error response is its header block followed by the body, and its Content-length reads back as the body's length |
| Response.ErrorBodyMentions | tiny/tiny.c:121-125 | the error body contains the status code, the short message, the long message and the cause |
| Response.ErrorResponseStatus | tiny/tiny.c:128-129 | the error response starts with `HTTP/1.0 <errnum> <shortmsg>\r\n` |
| Response.ServeStatic | tiny/tiny.c:183-189 | the header block `serve_static` builds is the `200 OK` status line, then Server, Connection, Content-length and Content-type headers in that order, then a blank line |
| Response.StaticContentLength | tiny/tiny.c:187 | a client reads the static Content-length from its header: the printed value when it is all digits, and no length otherwise |
| Response.StaticContentLengthIsFileSize | tiny/tiny.c:187 | for a file size passed unchanged, the announced Content-length reads back as the file size |
| Response.StaticHeadAsWritten | tiny/tiny.c:104 | the header block for the size truncated to `int` equals the one announcing the true size for every file below 2^31 bytes |
| Response.LargeFileLengthWraps | tiny/tiny.c:104 | with the size truncated to `int` as written, a file of 2^32 + 10 bytes is announced as 10 bytes, and one of 2^31 bytes as no readable length |
| Response.NegativeLengthUnreadable | tiny/tiny.c:187 | a negative `filesize` prints a Content-length no client reads as a length |
| Response.ServeDynamic | tiny/tiny.c:216-230 | `serve_dynamic` writes the `200 OK` status line and the Server header, then starts the program with an empty argument list, QUERY_STRING set to the arguments, and every other variable inherited |
| Response.ChildEnvironment | tiny/tiny.c:225 | the CGI program's environment is the server's with QUERY_STRING overwritten by the arguments |
| Response.DynamicPrefixOpensStaticForm | tiny/tiny.c:219-222 | the dynamic prefix is a proper prefix of a static header block: status line and Server header, with no blank line, so the program must finish the headers |
| Request.RequestTokens | tiny/tiny.c:85 | the method, URI and version tokens are at most three, each non-empty and free of white space, scanned from the request line read as a C string |
| Request.NulEndsRequestLine | tiny/tiny.c:85 | nothing after a NUL in the request line reaches the method, URI or version |
| Request.IsGet | tiny/tiny.c:86 | the method check accepts `GET`, and only three-character methods |
| Request.IsGetSpellings | tiny/tiny.c:86 | the method check accepts exactly the eight letter-case spellings of GET |
| Request.ThreeTokens | tiny/tiny.c:85 | three tokens after optional white space, separated by runs of white space, and followed by nothing or by white space, scan back to those three tokens |
| Request.ThreeTokensShape | tiny/tiny.c:85 | conversely, any string that yields three tokens has exactly that shape |
| Request.RequestLineRoundTrip | tiny/tiny.c:85 | a NUL-free request line `Method SP Request-URI SP HTTP-Version CRLF` scans back to its three parts |
| Request.BlankLineMeaning | tiny/tiny.c:142 | the blank-line test (`\r\n`, then the end of the line or a NUL) is exactly `strcmp` of the line, read as a C string, with `\r\n`; for a line without NUL it holds exactly for `\r\n` |
| Request.HeadersEndUnique | tiny/tiny.c:141-145 | where the header reading ends is determined by the input: at the first blank line |
| Request.ReadRequestHeaders | tiny/tiny.c:138-147 | reading stops just after the first line at or after the start that reads as `\r\n` as a C string: that line and every line before it are read, and no later one |
| Tiny.Doit | tiny/tiny.c:70-113 | the checks are made in order. No input gives no response and reads nothing. A method other than GET gives 501 after reading only the request line. Otherwise the headers are read up to the blank line. A missing file gives 404. A static file not regular or not owner-readable gives 403 "Tiny couldn't read the file"; a CGI program not regular or not owner-executable gives 403 "Tiny couldn't run the CGI program". Otherwise the file is served with its size (not truncated to `int`; see Findings), or the program is started. What is written is that outcome's response |
| Tiny.ServeFound | tiny/tiny.c:99-112 | once `stat` succeeds, static content needs a regular, owner-readable file and CGI content a regular, owner-executable one; each is then served |
| Tiny.ResponseStartsWithStatus | tiny/tiny.c:128 | every response starts with its status line: the error code and reason for an error page, `200 OK` for static and dynamic content (tiny/tiny.c:184 and 219) |
| Tiny.ErrorPageNamesCause | tiny/tiny.c:121-134 | an error response names its cause, its status code and its long message |
| Tiny.RootRequest | tiny/tiny.c:79-104 | a GET for `/` with one header line and the blank line, when `./home.html` is a regular readable file, serves `./home.html` with its size after reading all three lines |

`Tiny.HomePageRequest` and `Tiny.PostRequest` are two concrete requests
decided by the contracts of `Tiny.RootRequest` and `Tiny.Doit`. A browser's
GET for `/` with a Host header meets the requirements of `Tiny.RootRequest`.
A POST is refused with 501 after reading its request line only.

## Left out

- `main`: the listening socket, the accept loop, `Getnameinfo` and the SIGINT handler. These are sockets and signals.
- The Rio reader's internals and the `Rio_writen` calls. A request is a given sequence of lines, and a response is the string that would be written.
- The `stat` call itself. Its result is an input map.
- The file transfer in `serve_static` (`Open`, `Mmap`, `Rio_writen`, `Munmap`). This is file I/O. The model gives only the header block; in the C code the file's `filesize` bytes follow it.
- `Fork`, `Dup2`, `Execve` and `Wait` in `serve_dynamic`. The model returns what the child is started with (program, argument list, environment). What the program writes is not modelled.
- `sscanf` and `read_requesthdrs` on inputs where the C code is undefined or never returns. `Tiny.Doit` requires a method token; for GET, it also requires a URI token and a blank line after the request line. With fewer tokens, the C output buffers stay unset. Without a blank line the behaviour is undefined. When the input ends right after the request line, the local `buf` of `read_requesthdrs` (tiny/tiny.c:139) is never written, and `strcmp` (tiny/tiny.c:142) reads uninitialised memory. When it ends later, `buf` keeps the last line, and at best the loop spins. The version token is never used, so it is not required.
- `parse_uri` on an empty URI, which reads `uri[-1]`. This cannot arise from a scanned token, and `Uri.ParseUri` requires a non-empty URI.
- The in-place truncation of `uri` at its `?` (tiny/tiny.c:166). Nothing reads `uri` afterwards, so the model returns the file name and arguments as values.
- `MAXLINE` and `MAXBUF` overflow, and lines longer than `MAXLINE` that `Rio_readlineb` splits. Strings are unbounded.
- `sprintf(buf, "%s...", buf, ...)`, which reads and writes the same buffer and is undefined in C. It is modelled as the append it is evidently meant to be.
- `printf` logging to the server's standard output.
- The programs under `tiny/cgi-bin` (a file-backed counter and a clock). These are external programs doing I/O.
- Characters stand for bytes. `strlen` (tiny/tiny.c:132) counts bytes, and the model counts characters, so the two agree only for single-byte text. No encoding is modelled.
- Tiny.Doit: the static outcome and its header block carry the file's size as a natural number. Sizes of 2^31 bytes or more are not truncated to `int` as the C code does at tiny/tiny.c:104. This is the corrected program (see Findings); `Response.StaticHeadAsWritten` gives the header as written.
- Tiny.ServeFound: as for `Tiny.Doit`, `sbuf.size` is passed to `Response.ServeStatic` without truncation to `int`.
- Response.ServeDynamic: the ensures states the two lines written and what the program is started with. It does not state that the program's standard output becomes the connection.

## Findings

| source | as written | input that shows it | evidently intended | confidence | as-written member | corrected member |
|---|---|---|---|---|---|---|
| tiny/tiny.c:104 | `serve_static(fd, filename, sbuf.st_size)` passes the 64-bit `off_t` file size to the `int filesize` parameter (declared at tiny/tiny.c:178), so a size of 2^31 bytes or more is reduced modulo 2^32 to a signed 32-bit value before it is printed as Content-length | a regular, readable file of 2^32 + 10 bytes is announced as `Content-length: 10`; one of 2^31 bytes as `Content-length: -2147483648` | the announced Content-length is the file's size | not executed | Response.StaticHeadAsWritten, Response.LargeFileLengthWraps | Response.ServeStatic with the size as a natural number, Response.StaticContentLengthIsFileSize, used by Tiny.Doit |
