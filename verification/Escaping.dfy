/** Escaping for the graph exporters: XML text and attributes, Cypher string
    literals and property keys, each with the reader that undoes it, and why
    nothing else in the text is read as markup. */
module Escaping {
  import opened Prelude

  // ------------------------------------------------------------------- XML

  /** The Char production of XML 1.0, section 2.2. */
  predicate XmlChar(c: char) {
    || c == '\t' || c == '\n' || c == '\r'
    || ' ' <= c <= '\U{D7FF}' || '\U{E000}' <= c <= '\U{FFFD}' || '\U{10000}' <= c
  }

  function XmlEscape(c: char): string {
    if c == '&' then "&amp;"
    else if c == '<' then "&lt;"
    else if c == '>' then "&gt;"
    else if c == '\"' then "&quot;"
    else if c == '\'' then "&apos;"
    else if c == '\r' then "&#13;"
    else if c == '\n' then "&#10;"
    else if c == '\t' then "&#9;"
    else [c]
  }

  function XmlEscapeAll(s: string): string {
    if s == "" then "" else XmlEscapeAll(s[..|s| - 1]) + XmlEscape(s[|s| - 1])
  }

  /** Escape text character by character, refusing what XML 1.0 cannot hold. */
  method XmlText(value: string) returns (r: Result<string>)
    ensures r.Ok? <==> forall c :: c in value ==> XmlChar(c)
    ensures r.Ok? ==> r.value == XmlEscapeAll(value)
  {
    var out := "";
    for k := 0 to |value|
      invariant out == XmlEscapeAll(value[..k])
      invariant forall i :: 0 <= i < k ==> XmlChar(value[i])
    {
      assert value[..k + 1][..k] == value[..k];
      var c := value[k];
      match c {
        case '&' => out := out + "&amp;";
        case '<' => out := out + "&lt;";
        case '>' => out := out + "&gt;";
        case '\"' => out := out + "&quot;";
        case '\'' => out := out + "&apos;";
        case '\r' => out := out + "&#13;";
        case '\n' => out := out + "&#10;";
        case '\t' => out := out + "&#9;";
        case _ =>
          if ' ' <= c <= '\U{D7FF}' || '\U{E000}' <= c <= '\U{FFFD}' || '\U{10000}' <= c {
            out := out + [c];
          } else {
            assert value[k] in value;
            return Err("GraphML cannot represent this character in XML 1.0");
          }
      }
    }
    assert value[..|value|] == value;
    return Ok(out);
  }

  predicate Digit(c: char) {
    '0' <= c <= '9'
  }

  /** The decimal number at the front of `s` that ends with a semicolon, and how
      many characters it takes. */
  function CharacterNumber(s: string, read: nat): Option<(nat, nat)> {
    if s == "" then None
    else if s[0] == ';' then Some((read, 1))
    else if !Digit(s[0]) then None
    else
      var more := CharacterNumber(s[1..], 10 * read + (s[0] as int - '0' as int));
      if more.None? then None else Some((more.value.0, more.value.1 + 1))
  }

  /** Expand one reference: the five predefined entities of XML 1.0 section 4.6,
      or a decimal character reference. */
  function Reference(s: string): (r: Option<(char, nat)>)
    ensures r.Some? ==> 0 < r.value.1 <= |s|
  {
    if "&amp;" <= s then Some(('&', 5))
    else if "&lt;" <= s then Some(('<', 4))
    else if "&gt;" <= s then Some(('>', 4))
    else if "&quot;" <= s then Some(('\"', 6))
    else if "&apos;" <= s then Some(('\'', 6))
    else if "&#" <= s then
      NumberIsInside(s[2..], 0);
      var n := CharacterNumber(s[2..], 0);
      if n.Some? && n.value.0 < 0xD800 && XmlChar(n.value.0 as char)
      then Some((n.value.0 as char, n.value.1 + 2)) else None
    else None
  }

  lemma {:induction false} NumberIsInside(s: string, read: nat)
    ensures CharacterNumber(s, read).Some? ==> 0 < CharacterNumber(s, read).value.1 <= |s|
    decreases |s|
  {
    if s != "" && s[0] != ';' && Digit(s[0]) {
      NumberIsInside(s[1..], 10 * read + (s[0] as int - '0' as int));
    }
  }

  /** Read character data: references expand, raw markup is an error. */
  function XmlRead(s: string): Option<string> {
    if s == "" then Some("")
    else if s[0] == '<' || s[0] == '>' || s[0] == '\"' || s[0] == '\'' then None
    else if s[0] == '&' then
      var r := Reference(s);
      if r.None? then None
      else
        var rest := XmlRead(s[r.value.1..]);
        if rest.None? then None else Some([r.value.0] + rest.value)
    else
      var rest := XmlRead(s[1..]);
      if rest.None? then None else Some([s[0]] + rest.value)
  }

  lemma {:induction false} EscapeAllHead(s: string)
    requires s != ""
    ensures XmlEscapeAll(s) == XmlEscape(s[0]) + XmlEscapeAll(s[1..])
    decreases |s|
  {
    hide XmlEscape;
    if |s| == 1 {
      assert s[..0] == "" && s[1..] == "";
    } else {
      var init, last := s[..|s| - 1], s[|s| - 1];
      EscapeAllHead(init);
      assert init[1..] == s[1..][..|s| - 2] && s[1..][|s| - 2] == last;
      EscapeAllLast(s[1..]);
      EscapeAllLast(s);
    }
  }

  lemma EscapeAllLast(s: string)
    requires s != ""
    ensures XmlEscapeAll(s) == XmlEscapeAll(s[..|s| - 1]) + XmlEscape(s[|s| - 1])
  {
  }

  lemma {:induction false} EscapeAllAppends(a: string, b: string)
    ensures XmlEscapeAll(a + b) == XmlEscapeAll(a) + XmlEscapeAll(b)
    decreases |b|
  {
    if b == "" {
      assert a + b == a;
    } else {
      hide XmlEscape;
      var init := b[..|b| - 1];
      assert (a + b)[..|a + b| - 1] == a + init;
      EscapeAllLast(a + b);
      EscapeAllAppends(a, init);
    }
  }

  /** Wherever it stands, each special character is spelled by its reference, and
      any other character by itself. */
  lemma XmlSpellings(before: string, c: char, after: string)
    ensures exists spelled ::
      && XmlEscapeAll(before + [c] + after) == XmlEscapeAll(before) + spelled + XmlEscapeAll(after)
      && (c == '&' ==> spelled == "&amp;") && (c == '<' ==> spelled == "&lt;") && (c == '>' ==> spelled == "&gt;")
      && (c == '\"' ==> spelled == "&quot;") && (c == '\'' ==> spelled == "&apos;")
      && (c == '\r' ==> spelled == "&#13;") && (c == '\n' ==> spelled == "&#10;") && (c == '\t' ==> spelled == "&#9;")
      && (c !in "&<>\"\'\r\n\t" ==> spelled == [c])
  {
    EscapeAllAppends(before + [c], after);
    EscapeAllAppends(before, [c]);
    assert [c] == "" + [c] && XmlEscapeAll("") == "";
    EscapeAllLast([c]);
    assert XmlEscapeAll([c]) == XmlEscape(c);
  }

  lemma NumericReference(c: char, rest: string)
    requires c == '\r' || c == '\n' || c == '\t'
    ensures Reference(XmlEscape(c) + rest) == Some((c, |XmlEscape(c)|))
  {
    var s := XmlEscape(c) + rest;
    assert "&#" <= s;
    assert s[1] == '#';
    var t := s[2..];
    if c == '\t' {
      assert t[0] == '9' && t[1] == ';';
      assert CharacterNumber(t[1..], 9) == Some((9, 1));
      assert CharacterNumber(t, 0) == Some((9, 2));
    } else {
      var second := if c == '\r' then '3' else '0';
      assert t[0] == '1' && t[1] == second && t[2] == ';';
      assert t[1..][1..] == t[2..];
      assert CharacterNumber(t[2..], c as int) == Some((c as int, 1));
      assert CharacterNumber(t[1..], 1) == Some((c as int, 2));
      assert CharacterNumber(t, 0) == Some((c as int, 3));
    }
  }

  lemma EscapeIsReference(c: char, rest: string)
    requires |XmlEscape(c)| > 1
    ensures Reference(XmlEscape(c) + rest) == Some((c, |XmlEscape(c)|))
  {
    var s := XmlEscape(c) + rest;
    if c == '\r' || c == '\n' || c == '\t' {
      NumericReference(c, rest);
    } else {
      assert XmlEscape(c) <= s;
      assert s[1] == XmlEscape(c)[1];
      assert s[2] == XmlEscape(c)[2];
    }
  }

  lemma ReadsOneEscape(c: char, rest: string)
    requires XmlRead(rest).Some?
    ensures XmlRead(XmlEscape(c) + rest) == Some([c] + XmlRead(rest).value)
  {
    hide Reference, XmlEscape;
    EscapeShape(c);
    var s := XmlEscape(c) + rest;
    assert s[|XmlEscape(c)|..] == rest;
    if |XmlEscape(c)| > 1 {
      EscapeIsReference(c, rest);
    }
  }

  lemma EscapeShape(c: char)
    ensures |XmlEscape(c)| > 0
    ensures if |XmlEscape(c)| > 1 then XmlEscape(c)[0] == '&' else XmlEscape(c) == [c] && c != '&' && Harmless(c)
  {
  }

  /** Reading escaped text gives back the original, for any text at all. */
  lemma {:induction false} XmlRoundTrips(s: string)
    ensures XmlRead(XmlEscapeAll(s)) == Some(s)
    decreases |s|
  {
    hide XmlEscape, Reference;
    if s != "" {
      EscapeAllHead(s);
      XmlRoundTrips(s[1..]);
      ReadsOneEscape(s[0], XmlEscapeAll(s[1..]));
      assert s == [s[0]] + s[1..];
    }
  }

  predicate Harmless(c: char) {
    c != '<' && c != '>' && c != '\"' && c != '\'' && c != '\r' && c != '\n' && c != '\t'
  }

  /** Nothing an XML processor would rewrite or misread is left raw. */
  lemma {:induction false} NothingRawRemains(s: string)
    ensures forall c :: c in XmlEscapeAll(s) ==> Harmless(c)
    decreases |s|
  {
    if s != "" {
      hide XmlEscape, Harmless;
      NothingRawRemains(s[..|s| - 1]);
      EscapeIsHarmless(s[|s| - 1]);
    }
  }

  lemma EscapeIsHarmless(x: char)
    ensures forall c :: c in XmlEscape(x) ==> Harmless(c)
  {
  }

  /** Attribute-value normalization, XML 1.0 section 3.3.3: raw white space
      becomes a space. */
  function NormalizeAttribute(s: string): string {
    if s == "" then ""
    else [if s[0] == '\t' || s[0] == '\n' || s[0] == '\r' then ' ' else s[0]] + NormalizeAttribute(s[1..])
  }

  /** End-of-line handling, XML 1.0 section 2.11: a raw CR or CR LF becomes LF. */
  function NormalizeLines(s: string): string {
    if s == "" then ""
    else if s[0] != '\r' then [s[0]] + NormalizeLines(s[1..])
    else ['\n'] + NormalizeLines(if |s| > 1 && s[1] == '\n' then s[2..] else s[1..])
  }

  lemma {:induction false} NormalizingIsIdle(s: string)
    requires forall c :: c in s ==> Harmless(c)
    ensures NormalizeAttribute(s) == s && NormalizeLines(s) == s
    decreases |s|
  {
    if s != "" {
      assert s[0] in s && forall c :: c in s[1..] ==> c in s;
      NormalizingIsIdle(s[1..]);
    }
  }

  /** The exact text survives a conforming processor, in text and in
      attributes. */
  lemma XmlSurvivesProcessor(s: string)
    ensures XmlRead(NormalizeLines(XmlEscapeAll(s))) == Some(s)
    ensures XmlRead(NormalizeAttribute(NormalizeLines(XmlEscapeAll(s)))) == Some(s)
  {
    NothingRawRemains(s);
    NormalizingIsIdle(XmlEscapeAll(s));
    XmlRoundTrips(s);
  }

  // ---------------------------------------------------------------- Cypher

  /** Replace every occurrence of one character. */
  function Replace(s: string, c: char, text: string): string {
    if s == "" then "" else (if s[0] == c then text else [s[0]]) + Replace(s[1..], c, text)
  }

  /** The five replacements, one after the other over the whole text. */
  function CypherStaged(s: string): string {
    Replace(Replace(Replace(Replace(Replace(s, '\\', "\\\\"), '\'', "\\'"), '\n', "\\n"), '\r', "\\r"), '\t', "\\t")
  }

  function CypherEscape(c: char): string {
    if c == '\\' then "\\\\"
    else if c == '\'' then "\\'"
    else if c == '\n' then "\\n"
    else if c == '\r' then "\\r"
    else if c == '\t' then "\\t"
    else [c]
  }

  /** One pass, each character on its own. */
  function CypherOnePass(s: string): string {
    if s == "" then "" else CypherEscape(s[0]) + CypherOnePass(s[1..])
  }

  function CypherString(s: string): string {
    "'" + CypherStaged(s) + "'"
  }

  lemma {:induction false} ReplaceAppends(a: string, b: string, c: char, text: string)
    ensures Replace(a + b, c, text) == Replace(a, c, text) + Replace(b, c, text)
    decreases |a|
  {
    if a == "" {
      assert a + b == b;
    } else {
      assert (a + b)[1..] == a[1..] + b;
      ReplaceAppends(a[1..], b, c, text);
    }
  }

  lemma StagedAppends(a: string, b: string)
    ensures CypherStaged(a + b) == CypherStaged(a) + CypherStaged(b)
  {
    hide Replace;
    var a1, b1 := Replace(a, '\\', "\\\\"), Replace(b, '\\', "\\\\");
    var a2, b2 := Replace(a1, '\'', "\\'"), Replace(b1, '\'', "\\'");
    var a3, b3 := Replace(a2, '\n', "\\n"), Replace(b2, '\n', "\\n");
    var a4, b4 := Replace(a3, '\r', "\\r"), Replace(b3, '\r', "\\r");
    ReplaceAppends(a, b, '\\', "\\\\");
    ReplaceAppends(a1, b1, '\'', "\\'");
    ReplaceAppends(a2, b2, '\n', "\\n");
    ReplaceAppends(a3, b3, '\r', "\\r");
    ReplaceAppends(a4, b4, '\t', "\\t");
  }

  lemma ReplaceOne(x: char, c: char, text: string)
    ensures Replace([x], c, text) == if x == c then text else [x]
  {
  }

  lemma ReplaceTwo(x: char, y: char, c: char, text: string)
    requires x != c && y != c
    ensures Replace([x, y], c, text) == [x, y]
  {
    assert [x, y] == [x] + [y];
    ReplaceAppends([x], [y], c, text);
    ReplaceOne(x, c, text);
    ReplaceOne(y, c, text);
  }

  /** A later stage never touches what an earlier one produced. */
  lemma StagedOne(x: char)
    ensures CypherStaged([x]) == CypherEscape(x)
  {
    hide Replace;
    ReplaceOne(x, '\\', "\\\\");
    ReplaceOne(x, '\'', "\\'");
    ReplaceOne(x, '\n', "\\n");
    ReplaceOne(x, '\r', "\\r");
    ReplaceOne(x, '\t', "\\t");
    var second := if x == '\'' then '\'' else if x == '\n' then 'n' else if x == '\r' then 'r' else '\\';
    if x != '\'' { ReplaceTwo('\\', second, '\'', "\\'"); }
    ReplaceTwo('\\', second, '\n', "\\n");
    ReplaceTwo('\\', second, '\r', "\\r");
    ReplaceTwo('\\', second, '\t', "\\t");
  }

  lemma {:induction false} StagedIsOnePass(s: string)
    ensures CypherStaged(s) == CypherOnePass(s)
    decreases |s|
  {
    if s != "" {
      hide CypherStaged, CypherEscape;
      assert s == [s[0]] + s[1..];
      StagedAppends([s[0]], s[1..]);
      StagedOne(s[0]);
      StagedIsOnePass(s[1..]);
    }
  }

  /** Wherever it stands, each special character is spelled with a backslash, and
      any other character by itself. */
  lemma CypherSpellings(before: string, c: char, after: string)
    ensures exists spelled ::
      && CypherStaged(before + [c] + after) == CypherStaged(before) + spelled + CypherStaged(after)
      && (c == '\\' ==> spelled == "\\\\") && (c == '\'' ==> spelled == "\\'")
      && (c == '\n' ==> spelled == "\\n") && (c == '\r' ==> spelled == "\\r") && (c == '\t' ==> spelled == "\\t")
      && (c !in "\\\'\n\r\t" ==> spelled == [c])
  {
    StagedAppends(before + [c], after);
    StagedAppends(before, [c]);
    StagedOne(c);
  }

  /** Read a string literal after its opening quote: the value, and what
      follows the closing quote.  Raw line breaks and tabs are refused. */
  function ReadLiteral(s: string): Option<(string, string)> {
    if s == "" then None
    else if s[0] == '\'' then Some(("", s[1..]))
    else if s[0] == '\n' || s[0] == '\r' || s[0] == '\t' then None
    else if s[0] == '\\' then
      if |s| < 2 then None
      else
        var c := if s[1] == 'n' then '\n' else if s[1] == 'r' then '\r' else if s[1] == 't' then '\t' else s[1];
        Push(c, ReadLiteral(s[2..]))
    else Push(s[0], ReadLiteral(s[1..]))
  }

  function Push(c: char, r: Option<(string, string)>): Option<(string, string)> {
    if r.None? then None else Some(([c] + r.value.0, r.value.1))
  }

  /** A literal ends where the value ends, whatever the value and whatever
      follows, and reads back as the value. */
  lemma CypherStringReads(s: string, rest: string)
    ensures CypherString(s) + rest == "'" + (CypherStaged(s) + "'" + rest)
    ensures ReadLiteral(CypherStaged(s) + "'" + rest) == Some((s, rest))
  {
    StagedIsOnePass(s);
    OnePassReads(s, rest);
  }

  lemma {:induction false} OnePassReads(s: string, rest: string)
    ensures ReadLiteral(CypherOnePass(s) + "'" + rest) == Some((s, rest))
    decreases |s|
  {
    if s == "" {
      assert (CypherOnePass(s) + "'" + rest)[1..] == rest;
    } else {
      hide CypherEscape, ReadLiteral;
      var tail := CypherOnePass(s[1..]) + "'" + rest;
      assert CypherOnePass(s) + "'" + rest == CypherEscape(s[0]) + tail;
      OnePassReads(s[1..], rest);
      EscapeReads(s[0], tail);
      assert s == [s[0]] + s[1..];
    }
  }

  lemma EscapeReads(c: char, tail: string)
    ensures ReadLiteral(CypherEscape(c) + tail) == Push(c, ReadLiteral(tail))
  {
    assert (CypherEscape(c) + tail)[|CypherEscape(c)|..] == tail;
  }

  // ---------------------------------------------------------- property keys

  predicate KeyStart(c: char) {
    c == '_' || 'a' <= c <= 'z' || 'A' <= c <= 'Z'
  }

  predicate KeyPart(c: char) {
    KeyStart(c) || Digit(c)
  }

  predicate PlainKey(key: string) {
    key != "" && KeyStart(key[0]) && forall c :: c in key ==> KeyPart(c)
  }

  function PropertyKey(key: string): string {
    if PlainKey(key) then key else "`" + Replace(key, '`', "``") + "`"
  }

  /** Read the longest run of key characters. */
  function ReadName(s: string): (string, string) {
    if s == "" || !KeyPart(s[0]) then ("", s)
    else var (name, rest) := ReadName(s[1..]); ([s[0]] + name, rest)
  }

  /** Read a quoted key after its opening backtick; a doubled one stands for
      itself. */
  function ReadQuoted(s: string): Option<(string, string)> {
    if s == "" then None
    else if s[0] != '`' then Push(s[0], ReadQuoted(s[1..]))
    else if |s| > 1 && s[1] == '`' then Push('`', ReadQuoted(s[2..]))
    else Some(("", s[1..]))
  }

  function ReadKey(s: string): Option<(string, string)> {
    if s != "" && s[0] == '`' then ReadQuoted(s[1..]) else Some(ReadName(s))
  }

  lemma {:induction false} NameReads(key: string, rest: string)
    requires forall c :: c in key ==> KeyPart(c)
    requires rest == "" || !KeyPart(rest[0])
    ensures ReadName(key + rest) == (key, rest)
    decreases |key|
  {
    if key == "" {
      assert key + rest == rest;
    } else {
      assert key[0] in key;
      assert (key + rest)[1..] == key[1..] + rest;
      NameReads(key[1..], rest);
      assert key == [key[0]] + key[1..];
    }
  }

  lemma {:induction false} QuotedReads(key: string, rest: string)
    requires rest == "" || rest[0] != '`'
    ensures ReadQuoted(Replace(key, '`', "``") + "`" + rest) == Some((key, rest))
    decreases |key|
  {
    if key == "" {
      assert (Replace(key, '`', "``") + "`" + rest)[1..] == rest;
    } else {
      var head := if key[0] == '`' then "``" else [key[0]];
      var tail := Replace(key[1..], '`', "``") + "`" + rest;
      assert Replace(key, '`', "``") + "`" + rest == head + tail;
      QuotedReads(key[1..], rest);
      assert (head + tail)[|head|..] == tail;
      assert key == [key[0]] + key[1..];
    }
  }

  /** Every key, quoted or not, reads back, so distinct keys stay distinct. */
  lemma PropertyKeyReads(key: string, rest: string)
    requires rest == "" || (rest[0] != '`' && !KeyPart(rest[0]))
    ensures ReadKey(PropertyKey(key) + rest) == Some((key, rest))
  {
    if PlainKey(key) {
      hide ReadQuoted, ReadName, Replace;
      NameReads(key, rest);
      assert key[0] in key && (key + rest)[0] == key[0];
    } else {
      hide Replace, ReadQuoted, ReadName;
      var body := Replace(key, '`', "``") + "`" + rest;
      assert PropertyKey(key) + rest == "`" + body;
      assert ("`" + body)[1..] == body;
      QuotedReads(key, rest);
    }
  }
}
