/** The LaunchAgent plist: the text that the daemon writes and the reader that finds the program in it. */
module Plist {
  import opened Types

  // Searching and replacing in strings.

  predicate StartsWith(s: string, pattern: string) {
    |pattern| <= |s| && s[..|pattern|] == pattern
  }

  /** The position of the first occurrence. */
  function Find(s: string, pattern: string): (r: Option<nat>)
    ensures r.Some? ==> r.value + |pattern| <= |s|
  {
    if StartsWith(s, pattern) then Some(0)
    else if s == [] then None
    else
      match Find(s[1..], pattern)
      case None => None
      case Some(i) => Some(i + 1)
  }

  lemma {:induction false} FindIsFirst(s: string, pattern: string)
    ensures Find(s, pattern).Some? ==> StartsWith(s[Find(s, pattern).value..], pattern)
    ensures forall i: nat :: i <= |s| && (Find(s, pattern).None? || i < Find(s, pattern).value) ==> !StartsWith(s[i..], pattern)
  {
    if !StartsWith(s, pattern) && s != [] {
      FindIsFirst(s[1..], pattern);
      assert forall i: nat :: 0 < i <= |s| ==> s[i..] == s[1..][i - 1..];
    }
  }

  /** Replaces the occurrences of a non-empty pattern from left to right. */
  function Replace(s: string, pattern: string, to: string): string
    requires |pattern| > 0
  {
    if s == [] then []
    else if StartsWith(s, pattern) then to + Replace(s[|pattern|..], pattern, to)
    else [s[0]] + Replace(s[1..], pattern, to)
  }

  function FlatMap(s: string, f: char -> string): string {
    if s == [] then [] else f(s[0]) + FlatMap(s[1..], f)
  }

  // Escaping.

  function XmlEscape(value: string): string {
    Replace(Replace(Replace(Replace(Replace(value, "&", "&amp;"), "<", "&lt;"), ">", "&gt;"), "\"", "&quot;"), "'", "&apos;")
  }

  function XmlUnescape(value: string): string {
    Replace(Replace(Replace(Replace(Replace(value, "&lt;", "<"), "&gt;", ">"), "&quot;", "\""), "&apos;", "'"), "&amp;", "&")
  }

  /** The entity of a special character, the character itself otherwise. */
  function Entity(c: char): string {
    match c
    case '&' => "&amp;"
    case '<' => "&lt;"
    case '>' => "&gt;"
    case '"' => "&quot;"
    case '\'' => "&apos;"
    case _ => [c]
  }

  lemma {:induction false} ReplaceCharAppend(a: string, b: string, c: char, to: string)
    ensures Replace(a + b, [c], to) == Replace(a, [c], to) + Replace(b, [c], to)
    decreases |a|
  {
    if a == [] {
      assert a + b == b;
    } else {
      assert (a + b)[1..] == a[1..] + b;
      ReplaceCharAppend(a[1..], b, c, to);
      ReplaceFirst(a, c, to);
      ReplaceFirst(a + b, c, to);
    }
  }

  lemma ReplaceFirst(s: string, c: char, to: string)
    requires s != []
    ensures Replace(s, [c], to) == (if s[0] == c then to else [s[0]]) + Replace(s[1..], [c], to)
  {
    assert s[..1] == [s[0]];
  }

  /** Replacing one character in a text that was put together character by character. */
  lemma {:induction false} ReplaceCharMaps(s: string, f: char -> string, g: char -> string, c: char, to: string)
    requires forall x :: g(x) == Replace(f(x), [c], to)
    ensures Replace(FlatMap(s, f), [c], to) == FlatMap(s, g)
  {
    if s != [] {
      ReplaceCharAppend(f(s[0]), FlatMap(s[1..], f), c, to);
      ReplaceCharMaps(s[1..], f, g, c, to);
    }
  }

  lemma {:induction false} ReplaceAbsent(s: string, c: char, to: string)
    requires c !in s
    ensures Replace(s, [c], to) == s
  {
    if s != [] {
      assert s[0] in s;
      assert s[..1] == [s[0]];
      ReplaceAbsent(s[1..], c, to);
    }
  }

  lemma ReplaceItself(c: char, to: string)
    ensures Replace([c], [c], to) == to
  {
    assert [c][..1] == [c] && [c][1..] == [];
  }

  /** After the first k replacements, the characters replaced so far stand as entities. */
  function Escaped(k: nat, x: char): string {
    if x == '&' && k >= 1 then "&amp;"
    else if x == '<' && k >= 2 then "&lt;"
    else if x == '>' && k >= 3 then "&gt;"
    else if x == '"' && k >= 4 then "&quot;"
    else if x == '\'' && k >= 5 then "&apos;"
    else [x]
  }

  function Special(k: nat): char
    requires 1 <= k <= 5
  {
    match k case 1 => '&' case 2 => '<' case 3 => '>' case 4 => '"' case _ => '\''
  }

  lemma EscapeStep(s: string, k: nat)
    requires 1 <= k <= 5
    ensures Replace(FlatMap(s, x => Escaped(k - 1, x)), [Special(k)], Entity(Special(k))) == FlatMap(s, x => Escaped(k, x))
  {
    var c, f, g := Special(k), x => Escaped(k - 1, x), x => Escaped(k, x);
    forall x
      ensures g(x) == Replace(f(x), [c], Entity(c))
    {
      if x == c {
        ReplaceItself(c, Entity(c));
      } else {
        ReplaceAbsent(f(x), c, Entity(c));
      }
    }
    ReplaceCharMaps(s, f, g, c, Entity(c));
  }

  lemma {:induction false} FlatMapSame(s: string, f: char -> string, g: char -> string)
    requires forall x :: f(x) == g(x)
    ensures FlatMap(s, f) == FlatMap(s, g)
  {
    if s != [] {
      FlatMapSame(s[1..], f, g);
    }
  }

  lemma {:induction false} FlatMapUnit(s: string, f: char -> string)
    requires forall x :: f(x) == [x]
    ensures FlatMap(s, f) == s
  {
    if s != [] {
      FlatMapUnit(s[1..], f);
    }
  }

  /** The five ordered replacements are one substitution character by character. */
  lemma EscapeIsPerCharacter(s: string)
    ensures XmlEscape(s) == FlatMap(s, Entity)
  {
    hide Replace, FlatMap;
    FlatMapUnit(s, x => Escaped(0, x));
    EscapeStep(s, 1);
    EscapeStep(s, 2);
    EscapeStep(s, 3);
    EscapeStep(s, 4);
    EscapeStep(s, 5);
    FlatMapSame(s, x => Escaped(5, x), Entity);
  }

  // Unescaping.

  /** No occurrence of the pattern begins inside the token, whatever follows it. */
  ghost predicate Clashes(token: string, pattern: string) {
    && token != [] && pattern != []
    && (forall i :: 0 < i < |token| ==> token[i] != pattern[0])
    && exists k :: 0 <= k < |token| && k < |pattern| && token[k] != pattern[k]
  }

  lemma {:induction false} CopyUntil(token: string, rest: string, pattern: string, to: string)
    requires pattern != [] && forall i :: 0 <= i < |token| ==> token[i] != pattern[0]
    ensures Replace(token + rest, pattern, to) == token + Replace(rest, pattern, to)
    decreases |token|
  {
    if token == [] {
      assert token + rest == rest;
    } else {
      var s := token + rest;
      assert s[0] != pattern[0] && !StartsWith(s, pattern);
      assert s[1..] == token[1..] + rest;
      CopyUntil(token[1..], rest, pattern, to);
      assert [token[0]] + (token[1..] + Replace(rest, pattern, to)) == token + Replace(rest, pattern, to);
    }
  }

  lemma CopyToken(token: string, rest: string, pattern: string, to: string)
    requires Clashes(token, pattern)
    ensures Replace(token + rest, pattern, to) == token + Replace(rest, pattern, to)
  {
    var s := token + rest;
    var k :| 0 <= k < |token| && k < |pattern| && token[k] != pattern[k];
    assert s[k] != pattern[k] && !StartsWith(s, pattern);
    assert s[1..] == token[1..] + rest;
    CopyUntil(token[1..], rest, pattern, to);
    assert [token[0]] + (token[1..] + Replace(rest, pattern, to)) == token + Replace(rest, pattern, to);
  }

  /** Replacing a pattern that occurs in a text of tokens as whole tokens only. */
  lemma {:induction false} ReplaceTokens(s: string, f: char -> string, g: char -> string, pattern: string, to: string)
    requires pattern != []
    requires forall x :: if f(x) == pattern then g(x) == to else g(x) == f(x) && Clashes(f(x), pattern)
    ensures Replace(FlatMap(s, f), pattern, to) == FlatMap(s, g)
  {
    if s != [] {
      var rest := FlatMap(s[1..], f);
      ReplaceTokens(s[1..], f, g, pattern, to);
      if f(s[0]) == pattern {
        assert (pattern + rest)[..|pattern|] == pattern && (pattern + rest)[|pattern|..] == rest;
      } else {
        CopyToken(f(s[0]), rest, pattern, to);
      }
    }
  }

  /** After the first k replacements, the entities replaced so far stand as characters. */
  function Unescaped(k: nat, x: char): string {
    if x == '<' && k >= 1 then "<"
    else if x == '>' && k >= 2 then ">"
    else if x == '"' && k >= 3 then "\""
    else if x == '\'' && k >= 4 then "'"
    else if x == '&' && k >= 5 then "&"
    else Entity(x)
  }

  function Restored(k: nat): char
    requires 1 <= k <= 5
  {
    match k case 1 => '<' case 2 => '>' case 3 => '"' case 4 => '\'' case _ => '&'
  }

  lemma EntitiesClash(k: nat, x: char)
    requires 1 <= k <= 5 && x != Restored(k)
    ensures Unescaped(k, x) == Unescaped(k - 1, x) && Clashes(Unescaped(k - 1, x), Entity(Restored(k)))
  {
    var token, pattern := Unescaped(k - 1, x), Entity(Restored(k));
    if |token| == 1 {
      assert token[0] != pattern[0];
    } else {
      assert token[1] != pattern[1] || token[2] != pattern[2];
    }
  }

  lemma UnescapeStep(s: string, k: nat)
    requires 1 <= k <= 5
    ensures Replace(FlatMap(s, x => Unescaped(k - 1, x)), Entity(Restored(k)), [Restored(k)]) == FlatMap(s, x => Unescaped(k, x))
  {
    var c, f, g := Restored(k), x => Unescaped(k - 1, x), x => Unescaped(k, x);
    forall x
      ensures if f(x) == Entity(c) then g(x) == [c] else g(x) == f(x) && Clashes(f(x), Entity(c))
    {
      if x != c {
        EntitiesClash(k, x);
      }
    }
    ReplaceTokens(s, f, g, Entity(c), [c]);
  }

  /** Unescaping gives back every escaped string: replacing `&amp;` last keeps a literal `&lt;` apart from `<`. */
  lemma UnescapeInverts(s: string)
    ensures XmlUnescape(XmlEscape(s)) == s
  {
    hide Replace, FlatMap, Find;
    EscapeIsPerCharacter(s);
    FlatMapSame(s, Entity, x => Unescaped(0, x));
    UnescapeStep(s, 1);
    UnescapeStep(s, 2);
    UnescapeStep(s, 3);
    UnescapeStep(s, 4);
    UnescapeStep(s, 5);
    FlatMapUnit(s, x => Unescaped(5, x));
  }

  lemma {:induction false} EscapedHasNoTag(s: string)
    ensures '<' !in XmlEscape(s)
  {
    EscapeIsPerCharacter(s);
    MappedHasNoTag(s);
  }

  lemma {:induction false} MappedHasNoTag(s: string)
    ensures '<' !in FlatMap(s, Entity)
  {
    if s != [] {
      MappedHasNoTag(s[1..]);
      assert '<' !in Entity(s[0]);
    }
  }

  // The file.

  const LAUNCH_AGENT_LABEL := "dev.drnkn.valvd"

  /** A tag with what stands behind it up to the next one, then the rest of the text. */
  function Tagged(piece: string, rest: string): string {
    "<" + piece + rest
  }

  const ITEM_END := "/string>\n    "
  const RUN_ITEM := "string>run"
  const LAST_ITEM_END := "/string>\n  "

  function Arguments(program: string, rest: string): string {
    Tagged("string>" + XmlEscape(program), Tagged(ITEM_END, Tagged(RUN_ITEM, Tagged(LAST_ITEM_END, rest))))
  }

  function ProgramArray(program: string, rest: string): string {
    Tagged("array>\n    ", Arguments(program, Tagged("/array>\n  ", rest)))
  }

  function Ending(stdout: string, stderr: string): string {
    Tagged("key>RunAtLoad", Tagged("/key>\n  ", Tagged("true/>\n  ",
    Tagged("key>KeepAlive", Tagged("/key>\n  ", Tagged("true/>\n  ",
    Tagged("key>StandardOutPath", Tagged("/key>\n  ",
    Tagged("string>" + XmlEscape(stdout), Tagged("/string>\n  ",
    Tagged("key>StandardErrorPath", Tagged("/key>\n  ",
    Tagged("string>" + XmlEscape(stderr), Tagged("/string>\n",
    Tagged("/dict>\n", Tagged("/plist>\n", ""))))))))))))))))
  }

  const XML_DECLARATION := "?xml version=\"1.0\" encoding=\"UTF-8\"?>"
  const DOCTYPE_START := "!DOCTYPE plist PUBLIC \"-//Apple//DTD"
  const DOCTYPE_ID := " PLIST 1.0//EN\" \"http://www.apple.com"
  const DOCTYPE_END := "/DTDs/PropertyList-1.0.dtd\">"
  const DOCTYPE := DOCTYPE_START + DOCTYPE_ID + DOCTYPE_END

  function Header(rest: string): string {
    Tagged(XML_DECLARATION + "\n", Tagged(DOCTYPE + "\n",
    Tagged("plist version=\"1.0\">\n",
    Tagged("dict>\n  ", rest))))
  }

  function Label(rest: string): string {
    Tagged("key>Label", Tagged("/key>\n  ",
    Tagged("string>" + LAUNCH_AGENT_LABEL, Tagged("/string>\n  ", rest))))
  }

  function LaunchAgentPlist(program: string, stdout: string, stderr: string): string {
    Header(Label(Tagged("key>ProgramArguments", Tagged("/key>\n  ", ProgramArray(program, Ending(stdout, stderr))))))
  }

  const KEY_MARKER := "<key>ProgramArguments</key>"

  function ParseFirstProgramArgument(contents: string): Option<string> {
    match Find(contents, KEY_MARKER)
    case None => None
    case Some(keyIndex) =>
      var afterKey := contents[keyIndex + |KEY_MARKER|..];
      match (Find(afterKey, "<array>"), Find(afterKey, "</array>"))
      case (Some(arrayStart), Some(arrayEnd)) =>
        if arrayEnd < arrayStart + |"<array>"| then None
        else FirstString(afterKey[arrayStart + |"<array>"|..arrayEnd])
      case _ => None
  }

  function FirstString(contents: string): Option<string> {
    match (Find(contents, "<string>"), Find(contents, "</string>"))
    case (Some(start), Some(end)) =>
      if end < start + |"<string>"| then None else Some(XmlUnescape(contents[start + |"<string>"|..end]))
    case _ => None
  }

  // Finding tags.

  lemma {:induction false} FindPast(skipped: string, rest: string, pattern: string)
    requires pattern != [] && pattern[0] == '<' && '<' !in skipped
    ensures Find(skipped + rest, pattern) == match Find(rest, pattern) case None => None case Some(i) => Some(|skipped| + i)
    decreases |skipped|
  {
    if skipped == [] {
      assert skipped + rest == rest;
    } else {
      var s := skipped + rest;
      assert skipped[0] in skipped;
      assert s[0] != '<' && !StartsWith(s, pattern);
      assert s[1..] == skipped[1..] + rest;
      FindPast(skipped[1..], rest, pattern);
    }
  }

  /** The first occurrence of the pattern is where the tail begins. */
  ghost predicate Leads(s: string, pattern: string, tail: string) {
    Find(s, pattern).Some? && s[Find(s, pattern).value..] == tail
  }

  lemma LeadsHere(s: string, pattern: string)
    requires StartsWith(s, pattern)
    ensures Leads(s, pattern, s)
  {
    assert s[0..] == s;
  }

  lemma LeadsBehind(skipped: string, rest: string, pattern: string, tail: string)
    requires pattern != [] && pattern[0] == '<' && '<' !in skipped && Leads(rest, pattern, tail)
    ensures Leads(skipped + rest, pattern, tail)
  {
    FindPast(skipped, rest, pattern);
    var i := Find(rest, pattern).value;
    assert (skipped + rest)[|skipped| + i..] == rest[i..];
  }

  /** A piece that differs from the tag in its k-th character is passed over. */
  lemma LeadsPast(piece: string, rest: string, tag: string, tail: string, k: nat)
    requires '<' !in piece && k < |piece| && k < |tag| && piece[k] != tag[k] && Leads(rest, "<" + tag, tail)
    ensures Leads(Tagged(piece, rest), "<" + tag, tail)
  {
    var s, pattern := Tagged(piece, rest), "<" + tag;
    assert s[k + 1] != pattern[k + 1] && !StartsWith(s, pattern);
    assert s[1..] == piece + rest;
    LeadsBehind(piece, rest, pattern, tail);
    assert s[1 + Find(piece + rest, pattern).value..] == (piece + rest)[Find(piece + rest, pattern).value..];
  }

  /** What stands between an opening and a closing tag. */
  lemma Between(s: string, open: string, close: string, mid: string, tail: string)
    requires Leads(s, open, open + mid + tail) && Leads(s, close, tail)
    ensures Find(s, close).value == Find(s, open).value + |open| + |mid|
    ensures s[Find(s, open).value + |open|..Find(s, close).value] == mid
  {
    hide Find;
    SliceBetween(s, Find(s, open).value, open, mid, tail);
  }

  lemma SliceBetween(s: string, a: nat, open: string, mid: string, tail: string)
    requires a <= |s| && s[a..] == open + mid + tail
    ensures |s| == a + |open| + |mid| + |tail| && s[a + |open|..a + |open| + |mid|] == mid
  {
    assert |s| == a + |s[a..]|;
    assert s[a + |open|..a + |open| + |mid|] == s[a..][|open|..|open| + |mid|];
    assert (open + mid + tail)[|open|..|open| + |mid|] == mid;
  }

  // The reader on the writer's text.

  lemma DeclarationIsOneTag()
    ensures '<' !in XML_DECLARATION && |XML_DECLARATION| > 0 && XML_DECLARATION[0] == '?'
  {
  }

  lemma DoctypeIsOneTag()
    ensures '<' !in DOCTYPE && |DOCTYPE| > 0 && DOCTYPE[0] == '!'
  {
    hide DOCTYPE_START, DOCTYPE_ID, DOCTYPE_END;
    NoTagAtStart();
    NoTagInId();
    NoTagAtEnd();
  }

  lemma NoTagAtStart()
    ensures '<' !in DOCTYPE_START && |DOCTYPE_START| > 0 && DOCTYPE_START[0] == '!'
  {
  }

  lemma NoTagInId()
    ensures '<' !in DOCTYPE_ID
  {
  }

  lemma NoTagAtEnd()
    ensures '<' !in DOCTYPE_END
  {
  }

  lemma HeaderPast(rest: string, tag: string, tail: string)
    requires tag != [] && tag[0] == 'k' && Leads(rest, "<" + tag, tail)
    ensures Leads(Header(rest), "<" + tag, tail)
  {
    DeclarationIsOneTag();
    DoctypeIsOneTag();
    assert '<' !in "\n";
    hide Leads, Tagged, DOCTYPE, XML_DECLARATION;
    var t3 := Tagged("dict>\n  ", rest);
    LeadsPast("dict>\n  ", rest, tag, tail, 0);
    var t2 := Tagged("plist version=\"1.0\">\n", t3);
    LeadsPast("plist version=\"1.0\">\n", t3, tag, tail, 0);
    var t1 := Tagged(DOCTYPE + "\n", t2);
    LeadsPast(DOCTYPE + "\n", t2, tag, tail, 0);
    LeadsPast(XML_DECLARATION + "\n", t1, tag, tail, 0);
  }

  lemma LabelPast(rest: string, tag: string, tail: string)
    requires |tag| > 4 && tag[0] == 'k' && tag[4] == 'P' && Leads(rest, "<" + tag, tail)
    ensures Leads(Label(rest), "<" + tag, tail)
  {
    hide Leads, Tagged;
    var t3 := Tagged("/string>\n  ", rest);
    LeadsPast("/string>\n  ", rest, tag, tail, 0);
    var t2 := Tagged("string>" + LAUNCH_AGENT_LABEL, t3);
    LeadsPast("string>" + LAUNCH_AGENT_LABEL, t3, tag, tail, 0);
    var t1 := Tagged("/key>\n  ", t2);
    LeadsPast("/key>\n  ", t2, tag, tail, 0);
    LeadsPast("key>Label", t1, tag, tail, 4);
  }

  lemma KeyFound(rest: string)
    ensures var tail := Tagged("key>ProgramArguments", Tagged("/key>\n  ", rest));
            && Leads(Header(Label(tail)), KEY_MARKER, tail)
            && tail[|KEY_MARKER|..] == "\n  " + rest
  {
    var tail := Tagged("key>ProgramArguments", Tagged("/key>\n  ", rest));
    hide KEY_MARKER, Leads, Tagged, Header, Label;
    KeyStands(rest);
    var tag := KeyTag();
    LabelPast(tail, tag, tail);
    HeaderPast(Label(tail), tag, tail);
  }

  lemma KeyTag() returns (tag: string)
    ensures KEY_MARKER == "<" + tag && |tag| > 4 && tag[0] == 'k' && tag[4] == 'P'
  {
    tag := KEY_MARKER[1..];
    assert "<" + tag == KEY_MARKER;
  }

  lemma KeyStands(rest: string)
    ensures var tail := Tagged("key>ProgramArguments", Tagged("/key>\n  ", rest));
            Leads(tail, KEY_MARKER, tail) && tail[|KEY_MARKER|..] == "\n  " + rest
  {
    var tail := Tagged("key>ProgramArguments", Tagged("/key>\n  ", rest));
    assert tail == KEY_MARKER + ("\n  " + rest);
    hide KEY_MARKER, Tagged;
    LeadsHere(tail, KEY_MARKER);
  }

  lemma TaggedAppend(piece: string, a: string, b: string)
    ensures Tagged(piece, a + b) == Tagged(piece, a) + b
  {
  }

  lemma ArgumentsAppend(program: string, rest: string)
    ensures Arguments(program, rest) == Arguments(program, "") + rest
  {
    hide Tagged, XmlEscape, ITEM_END, RUN_ITEM, LAST_ITEM_END;
    var e4 := Tagged(LAST_ITEM_END, "");
    TaggedAppend(LAST_ITEM_END, "", rest);
    assert "" + rest == rest;
    var e3 := Tagged(RUN_ITEM, e4);
    TaggedAppend(RUN_ITEM, e4, rest);
    var e2 := Tagged(ITEM_END, e3);
    TaggedAppend(ITEM_END, e3, rest);
    TaggedAppend("string>" + XmlEscape(program), e2, rest);
  }

  /** A tag and the characters behind it. */
  lemma TagOpens(tag: string, more: string, rest: string)
    ensures Tagged(tag + more, rest) == "<" + tag + (more + rest)
    ensures StartsWith(Tagged(tag + more, rest), "<" + tag)
  {
  }

  lemma ArrayOpens(rest: string)
    ensures Tagged("array>\n    ", rest) == "<array>" + ("\n    " + rest)
    ensures StartsWith(Tagged("array>\n    ", rest), "<array>")
  {
    assert "array>\n    " == "array>" + "\n    " && "<array>" == "<" + "array>";
    TagOpens("array>", "\n    ", rest);
  }

  lemma ArrayCloses(rest: string)
    ensures StartsWith(Tagged("/array>\n  ", rest), "</array>")
  {
    assert "/array>\n  " == "/array>" + "\n  " && "</array>" == "<" + "/array>";
    TagOpens("/array>", "\n  ", rest);
  }

  lemma StringOpens(value: string, rest: string)
    ensures Tagged("string>" + value, rest) == "<string>" + value + rest
    ensures StartsWith(Tagged("string>" + value, rest), "<string>")
  {
    assert "<string>" == "<" + "string>";
    TagOpens("string>", value, rest);
  }

  lemma StringCloses(rest: string)
    ensures StartsWith(Tagged(ITEM_END, rest), "</string>")
  {
    assert "/string>\n    " == "/string>" + "\n    " && "</string>" == "<" + "/string>";
    TagOpens("/string>", "\n    ", rest);
  }

  /** What stands between the array's brackets. */
  function ArrayContents(program: string): string {
    "\n    " + Arguments(program, "")
  }

  lemma ItemEndsDiffer()
    ensures '<' !in ITEM_END && |ITEM_END| > 1 && ITEM_END[1] == 's'
    ensures '<' !in LAST_ITEM_END && |LAST_ITEM_END| > 1 && LAST_ITEM_END[1] == 's'
    ensures '<' !in RUN_ITEM && |RUN_ITEM| > 0 && RUN_ITEM[0] == 's'
  {
  }

  /** No bracket comes from the escaped program, so the array ends where it was closed. */
  lemma ArgumentsPast(program: string, tag: string, tail: string)
    requires |tag| > 1 && tag[0] == '/' && tag[1] == 'a' && Leads(tail, "<" + tag, tail)
    ensures Leads(Arguments(program, tail), "<" + tag, tail)
  {
    EscapedHasNoTag(program);
    ItemEndsDiffer();
    hide Leads, Tagged, XmlEscape, ITEM_END, RUN_ITEM, LAST_ITEM_END;
    var t4 := Tagged(LAST_ITEM_END, tail);
    LeadsPast(LAST_ITEM_END, tail, tag, tail, 1);
    var t3 := Tagged(RUN_ITEM, t4);
    LeadsPast(RUN_ITEM, t4, tag, tail, 0);
    var t2 := Tagged(ITEM_END, t3);
    LeadsPast(ITEM_END, t3, tag, tail, 1);
    LeadsPast("string>" + XmlEscape(program), t2, tag, tail, 0);
  }

  lemma ArrayFound(program: string, rest: string)
    ensures var s, tail := "\n  " + ProgramArray(program, rest), Tagged("/array>\n  ", rest);
            && Leads(s, "<array>", "<array>" + ArrayContents(program) + tail)
            && Leads(s, "</array>", tail)
  {
    var tail := Tagged("/array>\n  ", rest);
    var inner := Arguments(program, tail);
    var list := Tagged("array>\n    ", inner);
    ArrayOpens(inner);
    ArrayCloses(rest);
    assert "<" + "/array>" == "</array>";
    hide Leads, Tagged, XmlEscape, Arguments, StartsWith;
    ArgumentsAppend(program, tail);
    assert "<array>" + ("\n    " + (Arguments(program, "") + tail)) == "<array>" + ("\n    " + Arguments(program, "")) + tail;
    LeadsHere(list, "<array>");
    LeadsBehind("\n  ", list, "<array>", list);
    LeadsHere(tail, "</array>");
    ArgumentsPast(program, "/array>", tail);
    LeadsPast("array>\n    ", inner, "/array>", tail, 0);
    LeadsBehind("\n  ", list, "</array>", tail);
  }

  lemma StringFound(program: string, tail: string)
    requires StartsWith(tail, "</string>")
    ensures var s := "\n    " + Tagged("string>" + XmlEscape(program), tail);
            && Leads(s, "<string>", "<string>" + XmlEscape(program) + tail)
            && Leads(s, "</string>", tail)
  {
    var value := XmlEscape(program);
    var item := Tagged("string>" + value, tail);
    StringOpens(value, tail);
    EscapedHasNoTag(program);
    assert "<" + "/string>" == "</string>";
    hide Leads, Tagged, XmlEscape, StartsWith;
    LeadsHere(item, "<string>");
    LeadsBehind("\n    ", item, "<string>", item);
    LeadsHere(tail, "</string>");
    LeadsPast("string>" + value, tail, "/string>", tail, 0);
    LeadsBehind("\n    ", item, "</string>", tail);
  }

  lemma FirstStringFound(program: string)
    ensures FirstString(ArrayContents(program)) == Some(program)
  {
    var tail := Tagged(ITEM_END, Tagged(RUN_ITEM, Tagged(LAST_ITEM_END, "")));
    StringCloses(Tagged(RUN_ITEM, Tagged(LAST_ITEM_END, "")));
    hide ITEM_END, RUN_ITEM, LAST_ITEM_END, XmlEscape, XmlUnescape, Tagged, Find, StartsWith;
    StringFound(program, tail);
    Between(ArrayContents(program), "<string>", "</string>", XmlEscape(program), tail);
    UnescapeInverts(program);
  }

  lemma ArrayRead(program: string, rest: string, s: string)
    requires s == "\n  " + ProgramArray(program, rest)
    ensures Find(s, "<array>").Some? && Find(s, "</array>").Some?
    ensures Find(s, "<array>").value + |"<array>"| <= Find(s, "</array>").value
    ensures s[Find(s, "<array>").value + |"<array>"|..Find(s, "</array>").value] == ArrayContents(program)
  {
    hide Find, ProgramArray, ArrayContents, Tagged;
    ArrayFound(program, rest);
    Between(s, "<array>", "</array>", ArrayContents(program), Tagged("/array>\n  ", rest));
  }

  lemma SliceOfSlice(s: string, at: nat, n: nat)
    requires at + n <= |s|
    ensures s[at + n..] == s[at..][n..]
  {
  }

  lemma KeyRead(program: string, stdout: string, stderr: string)
    ensures var text := LaunchAgentPlist(program, stdout, stderr);
            && Find(text, KEY_MARKER).Some?
            && text[Find(text, KEY_MARKER).value + |KEY_MARKER|..] == "\n  " + ProgramArray(program, Ending(stdout, stderr))
  {
    hide Find, Header, Label, Tagged, ProgramArray, Ending, KEY_MARKER;
    var list := ProgramArray(program, Ending(stdout, stderr));
    KeyFound(list);
    var text := LaunchAgentPlist(program, stdout, stderr);
    SliceOfSlice(text, Find(text, KEY_MARKER).value, |KEY_MARKER|);
  }

  /** The program is read back from the file whatever it is called and wherever the logs go. */
  lemma ProgramReadBack(program: string, stdout: string, stderr: string)
    ensures ParseFirstProgramArgument(LaunchAgentPlist(program, stdout, stderr)) == Some(program)
  {
    hide Find, ProgramArray, Ending, FirstString, ArrayContents, LaunchAgentPlist, KEY_MARKER;
    var text := LaunchAgentPlist(program, stdout, stderr);
    KeyRead(program, stdout, stderr);
    ArrayRead(program, Ending(stdout, stderr), text[Find(text, KEY_MARKER).value + |KEY_MARKER|..]);
    FirstStringFound(program);
  }

  // The file line by line.

  function KeyLine(name: string): string {
    "  <key>" + name + "</key>"
  }

  function StringLine(indent: string, value: string): string {
    indent + "<string>" + value + "</string>"
  }

  function Lines(lines: seq<string>): string {
    if lines == [] then "" else lines[0] + "\n" + Lines(lines[1..])
  }

  /** The last lines of the file: the agent runs at load and is kept alive, standard output goes to the first
      path and standard error to the second. */
  function LastLines(stdout: string, stderr: string): seq<string> {
    [KeyLine("RunAtLoad"), "  <true/>", KeyLine("KeepAlive"), "  <true/>",
     KeyLine("StandardOutPath"), StringLine("  ", XmlEscape(stdout)),
     KeyLine("StandardErrorPath"), StringLine("  ", XmlEscape(stderr)),
     "</dict>", "</plist>"]
  }

  function FirstLines(program: string): seq<string> {
    ["<" + XML_DECLARATION, "<" + DOCTYPE,
     "<plist version=\"1.0\">", "<dict>", KeyLine("Label"), StringLine("  ", "dev.drnkn.valvd"),
     KeyLine("ProgramArguments"), "  <array>", StringLine("    ", XmlEscape(program)), StringLine("    ", "run"), "  </array>"]
  }

  lemma LinesStep(line: string, rest: seq<string>)
    ensures Lines([line] + rest) == line + "\n" + Lines(rest)
  {
    assert ([line] + rest)[1..] == rest;
  }

  /** Two tags that make a line: the indentation of the next line belongs to the second piece. */
  lemma LineOfTwo(indent: string, open: string, close: string, next: string, rest: string, line: string, following: seq<string>)
    requires line == indent + "<" + open + "<" + close && Lines(following) == next + rest
    ensures indent + Tagged(open, Tagged(close + "\n" + next, rest)) == Lines([line] + following)
  {
    LinesStep(line, following);
    var whole := indent + Tagged(open, Tagged(close + "\n" + next, rest));
    assert whole == indent + ("<" + open + ("<" + (close + "\n" + next) + rest));
    assert whole == (indent + "<" + open + "<" + close) + "\n" + (next + rest);
  }

  lemma LineOfOne(indent: string, open: string, next: string, rest: string, line: string, following: seq<string>)
    requires line == indent + "<" + open && Lines(following) == next + rest
    ensures indent + Tagged(open + "\n" + next, rest) == Lines([line] + following)
  {
    LinesStep(line, following);
    var whole := indent + Tagged(open + "\n" + next, rest);
    assert whole == (indent + "<" + open) + "\n" + (next + rest);
  }

  lemma KeyStep(name: string, piece: string, rest: string, following: seq<string>)
    requires piece == "key>" + name && Lines(following) == "  " + rest
    ensures "  " + Tagged(piece, Tagged("/key>\n  ", rest)) == Lines([KeyLine(name)] + following)
  {
    assert KeyLine(name) == "  " + "<" + piece + "<" + "/key>";
    assert "/key>\n  " == "/key>" + "\n" + "  ";
    hide Lines, Tagged, KeyLine;
    LineOfTwo("  ", piece, "/key>", "  ", rest, KeyLine(name), following);
  }

  lemma StringStep(indent: string, value: string, close: string, next: string, rest: string, following: seq<string>)
    requires close == "/string>" + "\n" + next && Lines(following) == next + rest
    ensures indent + Tagged("string>" + value, Tagged(close, rest)) == Lines([StringLine(indent, value)] + following)
  {
    assert StringLine(indent, value) == indent + "<" + ("string>" + value) + "<" + "/string>";
    hide Lines, Tagged, StringLine;
    LineOfTwo(indent, "string>" + value, "/string>", next, rest, StringLine(indent, value), following);
  }

  lemma TrueStep(rest: string, following: seq<string>)
    requires Lines(following) == "  " + rest
    ensures "  " + Tagged("true/>\n  ", rest) == Lines(["  <true/>"] + following)
  {
    assert "true/>\n  " == "true/>" + "\n" + "  ";
    assert "  <true/>" == "  " + "<" + "true/>";
    hide Lines, Tagged;
    LineOfOne("  ", "true/>", "  ", rest, "  <true/>", following);
  }

  lemma CloseLines()
    ensures Lines(["</dict>", "</plist>"]) == Tagged("/dict>\n", Tagged("/plist>\n", ""))
  {
    assert "/plist>\n" == "/plist>" + "\n" + "" && "/dict>\n" == "/dict>" + "\n" + "";
    assert "</plist>" == "" + "<" + "/plist>" && "</dict>" == "" + "<" + "/dict>";
    assert Lines([]) == "" + "";
    hide Lines, Tagged;
    LineOfOne("", "/plist>", "", "", "</plist>", []);
    assert ["</plist>"] + [] == ["</plist>"] && "" + Tagged("/plist>\n", "") == Tagged("/plist>\n", "");
    LineOfOne("", "/dict>", "", Tagged("/plist>\n", ""), "</dict>", ["</plist>"]);
    assert ["</dict>"] + ["</plist>"] == ["</dict>", "</plist>"];
    var text := Tagged("/dict>\n", Tagged("/plist>\n", ""));
    assert "" + text == text;
  }

  function ErrorEnding(stderr: string): string {
    Tagged("key>StandardErrorPath", Tagged("/key>\n  ",
    Tagged("string>" + XmlEscape(stderr), Tagged("/string>\n",
    Tagged("/dict>\n", Tagged("/plist>\n", ""))))))
  }

  function ErrorLines(stderr: string): seq<string> {
    [KeyLine("StandardErrorPath"), StringLine("  ", XmlEscape(stderr)), "</dict>", "</plist>"]
  }

  lemma ErrorByLines(stderr: string)
    ensures "  " + ErrorEnding(stderr) == Lines(ErrorLines(stderr))
  {
    assert "/string>\n" == "/string>" + "\n" + "";
    assert "key>StandardErrorPath" == "key>" + "StandardErrorPath";
    hide Lines, Tagged, KeyLine, StringLine, XmlEscape;
    CloseLines();
    var close := Tagged("/dict>\n", Tagged("/plist>\n", ""));
    assert "" + close == close;
    StringStep("  ", XmlEscape(stderr), "/string>\n", "", close, ["</dict>", "</plist>"]);
    var two := [StringLine("  ", XmlEscape(stderr))] + ["</dict>", "</plist>"];
    KeyStep("StandardErrorPath", "key>StandardErrorPath",
            Tagged("string>" + XmlEscape(stderr), Tagged("/string>\n", close)), two);
    assert [KeyLine("StandardErrorPath")] + two == ErrorLines(stderr);
  }

  function OutputEnding(stdout: string, rest: string): string {
    Tagged("key>StandardOutPath", Tagged("/key>\n  ", Tagged("string>" + XmlEscape(stdout), Tagged("/string>\n  ", rest))))
  }

  lemma OutputByLines(stdout: string, rest: string, following: seq<string>)
    requires Lines(following) == "  " + rest
    ensures "  " + OutputEnding(stdout, rest) ==
            Lines([KeyLine("StandardOutPath"), StringLine("  ", XmlEscape(stdout))] + following)
  {
    assert "/string>\n  " == "/string>" + "\n" + "  ";
    assert "key>StandardOutPath" == "key>" + "StandardOutPath";
    hide Lines, Tagged, KeyLine, StringLine, XmlEscape;
    StringStep("  ", XmlEscape(stdout), "/string>\n  ", "  ", rest, following);
    var more := [StringLine("  ", XmlEscape(stdout))] + following;
    KeyStep("StandardOutPath", "key>StandardOutPath", Tagged("string>" + XmlEscape(stdout), Tagged("/string>\n  ", rest)), more);
    assert [KeyLine("StandardOutPath")] + more == [KeyLine("StandardOutPath"), StringLine("  ", XmlEscape(stdout))] + following;
  }

  lemma FlagByLines(name: string, piece: string, rest: string, following: seq<string>)
    requires piece == "key>" + name && Lines(following) == "  " + rest
    ensures "  " + Tagged(piece, Tagged("/key>\n  ", Tagged("true/>\n  ", rest))) ==
            Lines([KeyLine(name), "  <true/>"] + following)
  {
    hide Lines, Tagged, KeyLine;
    TrueStep(rest, following);
    var more := ["  <true/>"] + following;
    KeyStep(name, piece, Tagged("true/>\n  ", rest), more);
    assert [KeyLine(name)] + more == [KeyLine(name), "  <true/>"] + following;
  }

  lemma EndingByLines(stdout: string, stderr: string)
    ensures "  " + Ending(stdout, stderr) == Lines(LastLines(stdout, stderr))
  {
    FlagKeys();
    hide *;
    ErrorByLines(stderr);
    OutputByLines(stdout, ErrorEnding(stderr), ErrorLines(stderr));
    var outputs := [KeyLine("StandardOutPath"), StringLine("  ", XmlEscape(stdout))] + ErrorLines(stderr);
    var output := OutputEnding(stdout, ErrorEnding(stderr));
    FlagByLines("KeepAlive", "key>KeepAlive", output, outputs);
    var alive := [KeyLine("KeepAlive"), "  <true/>"] + outputs;
    FlagByLines("RunAtLoad", "key>RunAtLoad", Tagged("key>KeepAlive", Tagged("/key>\n  ", Tagged("true/>\n  ", output))), alive);
    EndingNested(stdout, stderr);
    LastAppended(stdout, stderr);
  }

  lemma FlagKeys()
    ensures "key>RunAtLoad" == "key>" + "RunAtLoad" && "key>KeepAlive" == "key>" + "KeepAlive"
  {
  }

  lemma EndingNested(stdout: string, stderr: string)
    ensures Ending(stdout, stderr) ==
            Tagged("key>RunAtLoad", Tagged("/key>\n  ", Tagged("true/>\n  ",
            Tagged("key>KeepAlive", Tagged("/key>\n  ", Tagged("true/>\n  ", OutputEnding(stdout, ErrorEnding(stderr))))))))
  {
    hide Tagged, XmlEscape;
  }

  lemma LastAppended(stdout: string, stderr: string)
    ensures LastLines(stdout, stderr) ==
            [KeyLine("RunAtLoad"), "  <true/>"] + ([KeyLine("KeepAlive"), "  <true/>"]
            + ([KeyLine("StandardOutPath"), StringLine("  ", XmlEscape(stdout))] + ErrorLines(stderr)))
  {
    hide KeyLine, StringLine, XmlEscape;
  }

  function ArrayLines(program: string): seq<string> {
    ["  <array>", StringLine("    ", XmlEscape(program)), StringLine("    ", "run"), "  </array>"]
  }

  lemma ArrayByLines(program: string, rest: string, following: seq<string>)
    requires Lines(following) == "  " + rest
    ensures "  " + ProgramArray(program, rest) == Lines(ArrayLines(program) + following)
  {
    assert "/array>\n  " == "/array>" + "\n" + "  " && "  </array>" == "  " + "<" + "/array>";
    assert "array>\n    " == "array>" + "\n" + "    " && "  <array>" == "  " + "<" + "array>";
    assert LAST_ITEM_END == "/string>" + "\n" + "  " && ITEM_END == "/string>" + "\n" + "    " && RUN_ITEM == "string>" + "run";
    hide Lines, Tagged, StringLine, XmlEscape, ITEM_END, RUN_ITEM, LAST_ITEM_END;
    var close, value := Tagged("/array>\n  ", rest), XmlEscape(program);
    LineOfOne("  ", "/array>", "  ", rest, "  </array>", following);
    var a := ["  </array>"] + following;
    StringStep("    ", "run", LAST_ITEM_END, "  ", close, a);
    var b := [StringLine("    ", "run")] + a;
    StringStep("    ", value, ITEM_END, "    ", Tagged(RUN_ITEM, Tagged(LAST_ITEM_END, close)), b);
    var c := [StringLine("    ", value)] + b;
    LineOfOne("  ", "array>", "    ", Arguments(program, close), "  <array>", c);
    assert ["  <array>"] + c == ArrayLines(program) + following;
  }

  lemma HeaderByLines(rest: string, following: seq<string>)
    requires Lines(following) == "  " + rest
    ensures Header(rest) == Lines(["<" + XML_DECLARATION, "<" + DOCTYPE, "<plist version=\"1.0\">", "<dict>"] + following)
  {
    assert "plist version=\"1.0\">\n" == "plist version=\"1.0\">" + "\n" && "dict>\n  " == "dict>" + "\n" + "  ";
    assert "<plist version=\"1.0\">" == "<" + "plist version=\"1.0\">" && "<dict>" == "<" + "dict>";
    hide Lines, Tagged, XML_DECLARATION, DOCTYPE;
    LineOfOne("", "dict>", "  ", rest, "<dict>", following);
    var dict, a := Tagged("dict>\n  ", rest), ["<dict>"] + following;
    WholeLine("plist version=\"1.0\">", dict, a);
    var plist, b := Tagged("plist version=\"1.0\">\n", dict), ["<plist version=\"1.0\">"] + a;
    WholeLine(DOCTYPE, plist, b);
    var c := ["<" + DOCTYPE] + b;
    WholeLine(XML_DECLARATION, Tagged(DOCTYPE + "\n", plist), c);
    assert ["<" + XML_DECLARATION] + c ==
           ["<" + XML_DECLARATION, "<" + DOCTYPE, "<plist version=\"1.0\">", "<dict>"] + following;
  }

  lemma WholeLine(tag: string, rest: string, following: seq<string>)
    requires Lines(following) == rest
    ensures Tagged(tag + "\n", rest) == Lines(["<" + tag] + following)
  {
    LinesStep("<" + tag, following);
  }

  lemma LabelByLines(rest: string, following: seq<string>)
    requires Lines(following) == "  " + rest
    ensures "  " + Label(rest) == Lines([KeyLine("Label"), StringLine("  ", "dev.drnkn.valvd")] + following)
  {
    assert "/string>\n  " == "/string>" + "\n" + "  " && "key>Label" == "key>" + "Label";
    assert LAUNCH_AGENT_LABEL == "dev.drnkn.valvd";
    hide Lines, Tagged, KeyLine, StringLine, LAUNCH_AGENT_LABEL;
    StringStep("  ", LAUNCH_AGENT_LABEL, "/string>\n  ", "  ", rest, following);
    var more := [StringLine("  ", LAUNCH_AGENT_LABEL)] + following;
    KeyStep("Label", "key>Label", Tagged("string>" + LAUNCH_AGENT_LABEL, Tagged("/string>\n  ", rest)), more);
    assert [KeyLine("Label")] + more == [KeyLine("Label"), StringLine("  ", LAUNCH_AGENT_LABEL)] + following;
  }

  lemma LinesAppended(program: string, last: seq<string>)
    ensures FirstLines(program) + last ==
            ["<" + XML_DECLARATION, "<" + DOCTYPE, "<plist version=\"1.0\">", "<dict>"]
            + ([KeyLine("Label"), StringLine("  ", "dev.drnkn.valvd")]
               + ([KeyLine("ProgramArguments")] + (ArrayLines(program) + last)))
  {
    hide KeyLine, StringLine, XmlEscape, XML_DECLARATION, DOCTYPE;
  }

  /** The file is this template, line by line. */
  lemma PlistByLines(program: string, stdout: string, stderr: string)
    ensures LaunchAgentPlist(program, stdout, stderr) == Lines(FirstLines(program) + LastLines(stdout, stderr))
  {
    assert "key>ProgramArguments" == "key>" + "ProgramArguments";
    hide Lines, Tagged, KeyLine, StringLine, XmlEscape, FirstLines, LastLines, ArrayLines;
    hide Ending, ProgramArray, Label, Header, XML_DECLARATION, DOCTYPE;
    var ending, last := Ending(stdout, stderr), LastLines(stdout, stderr);
    EndingByLines(stdout, stderr);
    ArrayByLines(program, ending, last);
    var list, a := ProgramArray(program, ending), ArrayLines(program) + last;
    KeyStep("ProgramArguments", "key>ProgramArguments", list, a);
    var key, b := Tagged("key>ProgramArguments", Tagged("/key>\n  ", list)), [KeyLine("ProgramArguments")] + a;
    LabelByLines(key, b);
    HeaderByLines(Label(key), [KeyLine("Label"), StringLine("  ", "dev.drnkn.valvd")] + b);
    LinesAppended(program, last);
  }
}
