/**
  Content-type selection (`get_filetype`): an ordered table of name
  fragments, first match wins. A fragment matches when it occurs anywhere in
  the file name (`strstr`), so "./a.html.bak" is served as text/html and
  "./photo.jpeg" as text/plain.
*/
module FileType {
  import opened CString

  /** One row of the table: the fragment searched for and the MIME type it selects. */
  datatype Rule = Rule(fragment: string, mimeType: string)

  const RULES: seq<Rule> := [
    Rule(".html", "text/html"),
    Rule(".gif", "image/gif"),
    Rule(".png", "image/png"),
    Rule(".jpg", "image/jpeg")
  ]

  const DEFAULT_TYPE := "text/plain"

  /**
    `get_filetype(filename, filetype)`: the if-chain of the C code. It always
    yields one of the five types; ".html" anywhere in the name decides for
    text/html whatever else occurs; the default is chosen exactly when no
    fragment of the table occurs.
  */
  function GetFiletype(filename: string): (r: string)
    ensures r in {"text/html", "image/gif", "image/png", "image/jpeg", DEFAULT_TYPE}
    ensures r == "text/html" <==> Contains(filename, ".html")
    ensures r == DEFAULT_TYPE <==> forall rule :: rule in RULES ==> !Contains(filename, rule.fragment)
  {
    if Contains(filename, ".html") then "text/html"
    else if Contains(filename, ".gif") then "image/gif"
    else if Contains(filename, ".png") then "image/png"
    else if Contains(filename, ".jpg") then "image/jpeg"
    else "text/plain"
  }

  /** Reference definition: the first rule of `rules` whose fragment occurs in the name. */
  function FirstMatch(rules: seq<Rule>, filename: string): (r: string)
    ensures (exists i :: 0 <= i < |rules| && rules[i].mimeType == r) || r == DEFAULT_TYPE
  {
    if rules == [] then DEFAULT_TYPE
    else if Contains(filename, rules[0].fragment) then rules[0].mimeType
    else FirstMatch(rules[1..], filename)
  }

  /**
    The first-match table lookup agrees with the lookup that states its
    order explicitly: rule `i` decides exactly when its fragment occurs and
    no earlier one does; with no occurrence, the default decides.
  */
  lemma {:induction false} FirstMatchIsFirst(rules: seq<Rule>, filename: string, i: nat)
    requires i < |rules|
    requires Contains(filename, rules[i].fragment)
    requires forall j :: 0 <= j < i ==> !Contains(filename, rules[j].fragment)
    ensures FirstMatch(rules, filename) == rules[i].mimeType
  {
    if i > 0 {
      FirstMatchIsFirst(rules[1..], filename, i - 1);
    }
  }

  lemma {:induction false} FirstMatchDefault(rules: seq<Rule>, filename: string)
    requires forall j :: 0 <= j < |rules| ==> !Contains(filename, rules[j].fragment)
    ensures FirstMatch(rules, filename) == DEFAULT_TYPE
  {
    if rules != [] {
      FirstMatchDefault(rules[1..], filename);
    }
  }

  /** The C if-chain is the table lookup over the four rules, in their order. */
  lemma GetFiletypeIsTableLookup(filename: string)
    ensures GetFiletype(filename) == FirstMatch(RULES, filename)
  {
    var rs := RULES;
    if Contains(filename, ".html") {
      FirstMatchIsFirst(rs, filename, 0);
    } else if Contains(filename, ".gif") {
      FirstMatchIsFirst(rs, filename, 1);
    } else if Contains(filename, ".png") {
      FirstMatchIsFirst(rs, filename, 2);
    } else if Contains(filename, ".jpg") {
      FirstMatchIsFirst(rs, filename, 3);
    } else {
      FirstMatchDefault(rs, filename);
    }
  }

  /** Containment, not suffix: a rule's fragment anywhere in the name selects its type. */
  lemma FragmentAnywhereSelects(before: string, i: nat, after: string)
    requires i < |RULES|
    requires forall j :: 0 <= j < i ==> !Contains(before + RULES[i].fragment + after, RULES[j].fragment)
    ensures GetFiletype(before + RULES[i].fragment + after) == RULES[i].mimeType
  {
    var name := before + RULES[i].fragment + after;
    ContainsInfix(before, RULES[i].fragment, after);
    FirstMatchIsFirst(RULES, name, i);
    GetFiletypeIsTableLookup(name);
  }

  /** An ".html" anywhere wins over every later rule, as in "./x.gif.html" or "./a.html.png". */
  lemma HtmlWins(before: string, after: string)
    ensures GetFiletype(before + ".html" + after) == "text/html"
  {
    ContainsInfix(before, ".html", after);
  }

  /**
    A resolved name with no dot after the document root, such as "./README",
    is plain text (the root's own "." never starts a fragment, since "/"
    follows it).
  */
  lemma NoDotIsPlainText(rest: string)
    requires '.' !in rest
    ensures GetFiletype("./" + rest) == DEFAULT_TYPE
  {
    var name := "./" + rest;
    forall rule | rule in RULES ensures !Contains(name, rule.fragment) {
      assert |rule.fragment| >= 2 && rule.fragment[0] == '.' && rule.fragment[1] != '/';
      ContainsIff(name, rule.fragment);
      forall i: nat ensures !OccursAt(name, rule.fragment, i) {
        if i + |rule.fragment| <= |name| {
          assert name[i..i + |rule.fragment|][0] == name[i];
          assert name[i..i + |rule.fragment|][1] == name[i + 1];
          if i >= 2 {
            assert name[i] == rest[i - 2];
          }
        }
      }
    }
  }
}
