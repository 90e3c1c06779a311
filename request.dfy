/**
  Reading a request: the request line's tokens as `sscanf(buf, "%s %s %s",
  method, uri, version)` stores them, the case-insensitive method check, and
  the loop of `read_requesthdrs` that reads header lines up to and including
  the first blank one. The connection is modelled as the sequence of lines
  that successive `Rio_readlineb` calls return, each with its line ending.
*/
module Request {
  import opened CString

  const BLANK_LINE := "\r\n"

  /**
    The tokens `sscanf` stores into `method`, `uri` and `version` (fewer when
    the line has fewer). `sscanf` reads `buf` as a C string, so nothing after
    a NUL character in the line is scanned.
  */
  function RequestTokens(line: string): (toks: seq<string>)
    ensures |toks| <= 3
    ensures forall k :: 0 <= k < |toks| ==> toks[k] != [] && NoSpace(toks[k])
  {
    ScanTokens(CStr(line), 3)
  }

  /** What follows a NUL character in the request line never reaches the method, URI or version buffers. */
  lemma NulEndsRequestLine(line: string, hidden: string)
    requires NUL !in line
    ensures RequestTokens(line + [NUL] + hidden) == RequestTokens(line)
  {
    CStrStopsAtNul(line, hidden);
  }

  /** `strcasecmp(verb, "GET") == 0`: "GET" passes, and only three-letter methods do. */
  predicate IsGet(verb: string)
    ensures verb == "GET" ==> IsGet(verb)
    ensures IsGet(verb) ==> |verb| == 3
  {
    EqualsIgnoreCase(verb, "GET")
  }

  lemma IsGetSpellings(verb: string)
    ensures EqualsIgnoreCase(verb, "GET") <==> verb in {"GET", "GEt", "GeT", "Get", "gET", "gEt", "geT", "get"}
  {
    if |verb| == 3 {
      ToLowerIsLetter(verb[0], 'g');
      ToLowerIsLetter(verb[1], 'e');
      ToLowerIsLetter(verb[2], 't');
      assert "GET"[0] == 'G' && "GET"[1] == 'E' && "GET"[2] == 'T';
      if IsGet(verb) {
        assert ToLower(verb[0]) == 'g' && ToLower(verb[1]) == 'e' && ToLower(verb[2]) == 't';
        assert verb == [verb[0], verb[1], verb[2]];
      }
    }
  }

  /** A run of white space that ends just before a token holds the character in front of it. */
  predicate Separator(sep: string) {
    sep != [] && AllSpace(sep)
  }

  /** White space, a token, then an ending that is empty or starts with white space: the token comes first. */
  lemma TokenAfterRun(lead: string, t: string, rest: string, count: nat)
    requires AllSpace(lead) && t != [] && NoSpace(t)
    requires rest == [] || IsSpace(rest[0])
    requires count > 0
    ensures ScanTokens(lead + (t + rest), count) == [t] + ScanTokens(rest, count - 1)
    ensures lead != [] ==> IsSpace((lead + (t + rest))[0])
  {
    ScanSkipsRun(lead, t + rest, count);
    ScanFirst(t, rest, count);
  }

  lemma Regroup(a: string, b: string, c: string, d: string, e: string, f: string, g: string)
    ensures a + b + (c + d + (e + f + g)) == a + b + c + d + e + f + g
  {
  }

  lemma RegroupRight(a: string, b: string, c: string, d: string, e: string, f: string, g: string)
    ensures a + (b + (c + (d + (e + (f + g))))) == a + b + c + d + e + f + g
  {
  }

  /**
    Three tokens, optionally preceded by white space, separated by runs of
    white space and followed by an ending that is empty or starts with white
    space, scan back to the three tokens.
  */
  lemma ThreeTokens(lead: string, t0: string, sep0: string, t1: string, sep1: string, t2: string, ending: string)
    requires t0 != [] && NoSpace(t0) && t1 != [] && NoSpace(t1) && t2 != [] && NoSpace(t2)
    requires AllSpace(lead) && Separator(sep0) && Separator(sep1)
    requires ending == [] || IsSpace(ending[0])
    ensures ScanTokens(lead + t0 + sep0 + t1 + sep1 + t2 + ending, 3) == [t0, t1, t2]
  {
    var r0 := sep0 + (t1 + (sep1 + (t2 + ending)));
    TwoTokensAfterRun(sep0, t1, sep1, t2, ending);
    TokenAfterRun(lead, t0, r0, 3);
    RegroupRight(lead, t0, sep0, t1, sep1, t2, ending);
  }

  lemma TwoTokensAfterRun(sep0: string, t1: string, sep1: string, t2: string, ending: string)
    requires t1 != [] && NoSpace(t1) && t2 != [] && NoSpace(t2)
    requires Separator(sep0) && Separator(sep1)
    requires ending == [] || IsSpace(ending[0])
    ensures var r0 := sep0 + (t1 + (sep1 + (t2 + ending)));
      ScanTokens(r0, 2) == [t1, t2] && IsSpace(r0[0])
  {
    var r1 := sep1 + (t2 + ending);
    TokenAfterRun(sep1, t2, ending, 1);
    TokenAfterRun(sep0, t1, r1, 2);
  }

  /** A run of white space before a token, at the head of a string that starts with white space, is not empty. */
  lemma GapIsSeparator(r: string, lead: string, t: string, rest: string)
    requires t != [] && NoSpace(t) && AllSpace(lead)
    requires r == lead + t + rest && IsSpace(r[0])
    ensures Separator(lead)
  {
  }

  /**
    Conversely, a string that yields three tokens has exactly that shape:
    leading white space, the tokens between runs of white space, and an
    ending that is empty or starts with white space.
  */
  lemma ThreeTokensShape(s: string) returns (lead: string, sep0: string, sep1: string, ending: string)
    requires |ScanTokens(s, 3)| == 3
    ensures AllSpace(lead) && Separator(sep0) && Separator(sep1)
    ensures ending == [] || IsSpace(ending[0])
    ensures var toks := ScanTokens(s, 3);
      s == lead + toks[0] + sep0 + toks[1] + sep1 + toks[2] + ending
  {
    var toks := ScanTokens(s, 3);
    var r0;
    lead, r0 := ScanSplit(s, 3);
    assert ScanTokens(r0, 2) == toks[1..];
    sep0, sep1, ending := TwoTokensShape(r0);
    Regroup(lead, toks[0], sep0, toks[1], sep1, toks[2], ending);
  }

  lemma TwoTokensShape(r: string) returns (sep0: string, sep1: string, ending: string)
    requires r != [] && IsSpace(r[0]) && |ScanTokens(r, 2)| == 2
    ensures Separator(sep0) && Separator(sep1)
    ensures ending == [] || IsSpace(ending[0])
    ensures var toks := ScanTokens(r, 2);
      r == sep0 + toks[0] + (sep1 + toks[1] + ending)
  {
    var toks := ScanTokens(r, 2);
    var r1;
    sep0, r1 := ScanSplit(r, 2);
    GapIsSeparator(r, sep0, toks[0], r1);
    assert ScanTokens(r1, 1) == toks[1..];
    sep1, ending := ScanSplit(r1, 1);
    GapIsSeparator(r1, sep1, toks[1], ending);
  }

  /**
    A request line that is a C string in the form of section 5.1 of RFC 1945
    (Method SP Request-URI SP HTTP-Version CRLF) scans back to its three parts.
  */
  lemma RequestLineRoundTrip(verb: string, uri: string, version: string)
    requires verb != [] && NoSpace(verb) && NUL !in verb
    requires uri != [] && NoSpace(uri) && NUL !in uri
    requires version != [] && NoSpace(version) && NUL !in version
    ensures RequestTokens(verb + " " + uri + " " + version + "\r\n") == [verb, uri, version]
  {
    var line := verb + " " + uri + " " + version + "\r\n";
    assert NUL !in line;
    assert "" + verb == verb;
    ThreeTokens("", verb, " ", uri, " ", version, "\r\n");
  }

  /**
    `strcmp(buf, "\r\n") == 0`: the line starts with "\r\n" and its C string
    ends there, at the end of the line or at a NUL.
  */
  predicate IsBlankLine(line: string) {
    |line| >= 2 && line[0] == '\r' && line[1] == '\n' && (|line| == 2 || line[2] == NUL)
  }

  /**
    The blank-line test is the comparison of the line, read as a C string,
    with "\r\n"; for a line without NUL, it holds exactly for "\r\n".
  */
  lemma BlankLineMeaning(line: string)
    ensures IsBlankLine(line) <==> CStr(line) == BLANK_LINE
    ensures NUL !in line ==> (IsBlankLine(line) <==> line == BLANK_LINE)
  {
    var r := CStr(line);
    if IsBlankLine(line) {
      if |line| == 2 {
        assert line == [line[0], line[1]];
        assert line == BLANK_LINE;
      } else {
        assert |r| == 2;
        assert r == line[..2];
      }
    }
    if r == BLANK_LINE {
      assert line[0] == r[0] && line[1] == r[1];
    }
  }

  /** Some line at or after `start` is the blank line that ends the headers. */
  predicate HasBlankLine(lines: seq<string>, start: nat) {
    exists i :: start <= i < |lines| && IsBlankLine(lines[i])
  }

  /**
    Reading from `start` ends just after line `next - 1`: that line is blank,
    and none read before it is.
  */
  predicate HeadersEnd(lines: seq<string>, start: nat, next: nat) {
    && start < next <= |lines|
    && IsBlankLine(lines[next - 1])
    && forall k :: start <= k < next - 1 ==> !IsBlankLine(lines[k])
  }

  /** Where the header reading ends is determined: at the first blank line. */
  lemma HeadersEndUnique(lines: seq<string>, start: nat, a: nat, b: nat)
    requires HeadersEnd(lines, start, a) && HeadersEnd(lines, start, b)
    ensures a == b
  {
  }

  /**
    `read_requesthdrs`: read one line, then keep reading while the last line
    read, taken as a C string, is not "\r\n". Returns the index of the first
    line not read. The C code is defined only if a blank line comes: when the
    input ends first, `buf` holds a stale line or, if no header line came at
    all, was never written, so the behaviour is undefined and at best the
    loop spins.
  */
  method ReadRequestHeaders(lines: seq<string>, start: nat) returns (next: nat)
    requires HasBlankLine(lines, start)
    ensures HeadersEnd(lines, start, next)
  {
    ghost var blank :| start <= blank < |lines| && IsBlankLine(lines[blank]);
    var buf := lines[start];
    next := start + 1;
    while !IsBlankLine(buf)
      invariant start < next <= blank + 1
      invariant buf == lines[next - 1]
      invariant forall k :: start <= k < next - 1 ==> !IsBlankLine(lines[k])
      decreases blank + 1 - next
    {
      buf := lines[next];
      next := next + 1;
    }
  }
}
