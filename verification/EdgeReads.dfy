/** The data blocks of an edge-composed page: JSON made safe inside a script element, and the element around it. */
module EdgeReads {
  import opened Wrappers
  import opened Json
  import Strings = Text

  const LINE_SEPARATOR: char := '\U{2028}'
  const PARAGRAPH_SEPARATOR: char := '\U{2029}'

  function Replace(text: string, c: char, with: string): string {
    if text == "" then "" else (if text[0] == c then with else [text[0]]) + Replace(text[1..], c, with)
  }

  /** Three passes over the text, one after the other. */
  function SafeJson(text: string): string {
    Replace(Replace(Replace(text, '<', "\\u003c"), LINE_SEPARATOR, "\\u2028"), PARAGRAPH_SEPARATOR, "\\u2029")
  }

  // ---------------------------------------------------------------- the passes, character by character

  function EscapeOf(c: char): string {
    if c == '<' then "\\u003c"
    else if c == LINE_SEPARATOR then "\\u2028"
    else if c == PARAGRAPH_SEPARATOR then "\\u2029"
    else [c]
  }

  predicate Plain(c: char) {
    c != '<' && c != LINE_SEPARATOR && c != PARAGRAPH_SEPARATOR
  }

  lemma {:induction false} ReplaceJoin(a: string, b: string, c: char, with: string)
    ensures Replace(a + b, c, with) == Replace(a, c, with) + Replace(b, c, with)
  {
    if a == "" {
      assert a + b == b;
    } else {
      assert (a + b)[1..] == a[1..] + b;
      ReplaceJoin(a[1..], b, c, with);
    }
  }

  lemma {:induction false} ReplaceAbsent(a: string, c: char, with: string)
    requires c !in a
    ensures Replace(a, c, with) == a
  {
    if a != "" { ReplaceAbsent(a[1..], c, with); }
  }

  lemma ReplaceOne(c: char, target: char, with: string)
    ensures Replace([c], target, with) == if c == target then with else [c]
  {
    assert [c][1..] == "" && Replace("", target, with) == "";
  }

  /** A text's safe form is made of its characters' safe forms. */
  lemma SafeStart(c: char, rest: string)
    ensures SafeJson([c] + rest) == EscapeOf(c) + SafeJson(rest)
  {
    var first := Replace([c], '<', "\\u003c");
    var second := Replace(first, LINE_SEPARATOR, "\\u2028");
    ReplaceOne(c, '<', "\\u003c");
    ReplaceOne(c, LINE_SEPARATOR, "\\u2028");
    ReplaceOne(c, PARAGRAPH_SEPARATOR, "\\u2029");
    if c == '<' {
      ReplaceAbsent("\\u003c", LINE_SEPARATOR, "\\u2028");
      ReplaceAbsent("\\u003c", PARAGRAPH_SEPARATOR, "\\u2029");
    }
    if c == LINE_SEPARATOR { ReplaceAbsent("\\u2028", PARAGRAPH_SEPARATOR, "\\u2029"); }
    ReplaceJoin([c], rest, '<', "\\u003c");
    ReplaceJoin(first, Replace(rest, '<', "\\u003c"), LINE_SEPARATOR, "\\u2028");
    var after := Replace(Replace(rest, '<', "\\u003c"), LINE_SEPARATOR, "\\u2028");
    ReplaceJoin(second, after, PARAGRAPH_SEPARATOR, "\\u2029");
  }

  lemma SafeEmpty()
    ensures SafeJson("") == ""
  {
  }

  lemma {:induction false} SafePlain(a: string, rest: string)
    requires forall i :: 0 <= i < |a| ==> Plain(a[i])
    ensures SafeJson(a + rest) == a + SafeJson(rest)
  {
    if a == "" {
      assert a + rest == rest;
    } else {
      SafePlain(a[1..], rest);
      SafeStart(a[0], a[1..] + rest);
      assert a + rest == [a[0]] + (a[1..] + rest);
    }
  }

  /** No `<` and neither line separator survives, whatever the text. */
  lemma {:induction false} SafeIsPlain(text: string, i: nat)
    requires i < |SafeJson(text)|
    ensures Plain(SafeJson(text)[i])
  {
    if text == "" {
      SafeEmpty();
    } else {
      assert text == [text[0]] + text[1..];
      SafeStart(text[0], text[1..]);
      if i >= |EscapeOf(text[0])| { SafeIsPlain(text[1..], i - |EscapeOf(text[0])|); }
    }
  }

  // ---------------------------------------------------------------- the same tokens

  lemma SafeHex(s: string)
    requires |s| >= 4 && HexUnit(s).Some?
    ensures forall i :: 0 <= i < 4 ==> Plain(s[i])
  {
  }

  /** A character that needs escaping is read back from its escape. */
  lemma EscapeReads(c: char, rest: string)
    requires !Plain(c)
    ensures ReadLiteral(EscapeOf(c) + rest) == After(UnitsOf(c), ReadLiteral(rest))
  {
    var s := EscapeOf(c) + rest;
    assert |EscapeOf(c)| == 6;
    assert s[6..] == rest && s[2..6] == EscapeOf(c)[2..6];
  }

  /** A string literal reads the same after the passes, and ends at the same place. */
  lemma {:induction false} LiteralKept(s: string)
    requires ReadLiteral(s).Good?
    ensures ReadLiteral(SafeJson(s)) == Good(ReadLiteral(s).units, SafeJson(ReadLiteral(s).rest))
    decreases |s|
  {
    if s[0] == '"' {
      SafePlain(s[..1], s[1..]);
      assert s == s[..1] + s[1..];
      assert (s[..1] + SafeJson(s[1..]))[1..] == SafeJson(s[1..]);
    } else if s[0] != '\\' {
      LiteralKept(s[1..]);
      SafeStart(s[0], s[1..]);
      assert s == [s[0]] + s[1..];
      if Plain(s[0]) {
        assert ([s[0]] + SafeJson(s[1..]))[1..] == SafeJson(s[1..]);
      } else {
        EscapeReads(s[0], SafeJson(s[1..]));
      }
    } else {
      EscapeKept(s);
    }
  }

  lemma {:induction false} EscapeKept(s: string)
    requires ReadLiteral(s).Good? && s[0] == '\\'
    ensures ReadLiteral(SafeJson(s)) == Good(ReadLiteral(s).units, SafeJson(ReadLiteral(s).rest))
    decreases |s|, 0
  {
    var n := if s[1] == 'u' then 6 else 2;
    LiteralKept(s[n..]);
    if n == 6 { SafeHex(s[2..6]); assert forall i :: 2 <= i < 6 ==> s[i] == s[2..6][i - 2]; }
    SafePlain(s[..n], s[n..]);
    assert s == s[..n] + s[n..];
    var t := s[..n] + SafeJson(s[n..]);
    assert t[n..] == SafeJson(s[n..]) && t[0] == s[0] && t[1] == s[1];
    if n == 6 { assert t[2..6] == s[2..6]; }
  }

  /** A run of plain characters has the same length in the safe text. */
  lemma RunKept(s: string, kind: char -> bool)
    requires !kind('\\') && forall c :: kind(c) ==> Plain(c)
    ensures
      var n := RunLength(s, kind);
      RunLength(SafeJson(s), kind) == n && SafeJson(s) == s[..n] + SafeJson(s[n..])
  {
    var n := RunLength(s, kind);
    SafePlain(s[..n], s[n..]);
    assert s == s[..n] + s[n..];
    var t := s[..n] + SafeJson(s[n..]);
    if n < |s| {
      SafeStart(s[n], s[n + 1..]);
      assert s[n..] == [s[n]] + s[n + 1..];
      assert t[n] == EscapeOf(s[n])[0];
    } else {
      SafeEmpty();
    }
    RunIs(t, kind, n);
  }

  lemma RunIs(s: string, kind: char -> bool, n: nat)
    requires n <= |s| && (forall i :: 0 <= i < n ==> kind(s[i])) && (n < |s| ==> !kind(s[n]))
    ensures RunLength(s, kind) == n
  {
    var m := RunLength(s, kind);
    assert m < |s| ==> !kind(s[m]);
  }

  /** What a safe text's next token should be, given the text's. */
  function SafeRest(r: Lexed): Lexed {
    match r
    case Wrong => Wrong
    case Blank(rest) => Blank(SafeJson(rest))
    case Read(token, rest) => Read(token, SafeJson(rest))
  }

  lemma LiteralNext(s: string)
    requires s != "" && s[0] == '"' && !Next(s).Wrong?
    requires SafeJson(s) == [s[0]] + SafeJson(s[1..])
    ensures Next(SafeJson(s)) == SafeRest(Next(s))
  {
    assert SafeJson(s)[1..] == SafeJson(s[1..]);
    LiteralKept(s[1..]);
  }

  lemma WordNext(s: string)
    requires s != "" && IsLetter(s[0]) && !Next(s).Wrong?
    requires SafeJson(s) == [s[0]] + SafeJson(s[1..])
    ensures Next(SafeJson(s)) == SafeRest(Next(s))
  {
    RunKept(s, IsLetter);
  }

  lemma NumberNext(s: string)
    requires s != "" && IsNumberChar(s[0]) && !IsLetter(s[0]) && !Next(s).Wrong?
    requires SafeJson(s) == [s[0]] + SafeJson(s[1..])
    ensures Next(SafeJson(s)) == SafeRest(Next(s))
  {
    RunKept(s, IsNumberChar);
  }

  lemma NextKept(s: string)
    requires s != "" && !Next(s).Wrong?
    ensures SafeJson(s) != "" && Next(SafeJson(s)) == SafeRest(Next(s))
  {
    SafeStart(s[0], s[1..]);
    assert s == [s[0]] + s[1..];
    if s[0] == '"' {
      LiteralNext(s);
    } else if IsLetter(s[0]) {
      WordNext(s);
    } else if IsNumberChar(s[0]) {
      NumberNext(s);
    } else {
      assert SafeJson(s)[1..] == SafeJson(s[1..]);
    }
  }

  lemma {:induction false} TokensKept(s: string)
    requires Lex(s).Some?
    ensures Lex(SafeJson(s)) == Lex(s)
    decreases |s|
  {
    if s == "" {
      SafeEmpty();
    } else {
      NextKept(s);
      TokensKept(Next(s).rest);
    }
  }

  /** The safe form of a JSON text is a JSON text of the same value, with no `<` and no line separator in it. */
  lemma SafeJsonKeepsValue(text: string)
    requires Decode(text).Some?
    ensures Decode(SafeJson(text)) == Decode(text)
    ensures forall i :: 0 <= i < |SafeJson(text)| ==> Plain(SafeJson(text)[i])
  {
    TokensKept(text);
    forall i | 0 <= i < |SafeJson(text)| ensures Plain(SafeJson(text)[i]) { SafeIsPlain(text, i); }
  }

  const WRONG_TEXT := ['"', '\\', '<', '"']

  lemma SafeWrongText()
    ensures SafeJson(WRONG_TEXT) == ['"', '\\'] + ("\\u003c" + ['"'])
  {
    var start, end := ['"', '\\'], ['"'];
    assert WRONG_TEXT == start + (['<'] + end);
    SafePlain(start, ['<'] + end);
    SafeStart('<', end);
    assert SafeJson(end) == end by { SafePlain(end, ""); SafeEmpty(); assert end + "" == end; }
  }

  lemma OneText(s: string, units: Units)
    requires s != "" && s[0] == '"' && ReadLiteral(s[1..]) == Good(units, "")
    ensures Decode(s).Some?
  {
    assert Next(s) == Read(Text(units), "");
    assert Lex("") == Some([]) && [Text(units)] + [] == [Text(units)];
    assert ParseValue([Text(units)]) == Done(Str(units), []);
  }

  /** The value is promised for JSON only: the passes turn this text, whose literal is wrong, into a JSON text. */
  lemma WrongTextMadeRight()
    ensures Decode(WRONG_TEXT) == None && Decode(SafeJson(WRONG_TEXT)).Some?
  {
    SafeWrongText();
    assert ReadLiteral(WRONG_TEXT[1..]) == Bad;
    assert Next(WRONG_TEXT) == Wrong;
    RightText(SafeJson(WRONG_TEXT));
  }

  lemma RightText(safe: string)
    requires safe == ['"', '\\'] + ("\\u003c" + ['"'])
    ensures Decode(safe).Some?
  {
    LiteralOfPlain("u003c", "");
    assert safe[1..][2..] == "u003c" + ['"'] + "";
    OneText(safe, [0x5C] + ReadLiteral(safe[1..][2..]).units);
  }

  lemma {:induction false} LiteralOfPlain(a: string, rest: string)
    requires forall i :: 0 <= i < |a| ==> ' ' <= a[i] && a[i] != '"' && a[i] != '\\'
    ensures ReadLiteral(a + ['"'] + rest).Good? && ReadLiteral(a + ['"'] + rest).rest == rest
  {
    var s := a + ['"'] + rest;
    if a == "" {
      assert s[1..] == rest;
    } else {
      LiteralOfPlain(a[1..], rest);
      assert s[1..] == a[1..] + ['"'] + rest;
    }
  }

  // ---------------------------------------------------------------- attribute values

  /** Attribute text: three passes, the ampersand first. */
  function Attr(v: string): string {
    Replace(Replace(Replace(v, '&', "&amp;"), '"', "&quot;"), '<', "&lt;")
  }

  function AttrOf(c: char): string {
    if c == '&' then "&amp;" else if c == '"' then "&quot;" else if c == '<' then "&lt;" else [c]
  }

  lemma AttrStart(c: char, rest: string)
    ensures Attr([c] + rest) == AttrOf(c) + Attr(rest)
  {
    var first := Replace([c], '&', "&amp;");
    var second := Replace(first, '"', "&quot;");
    ReplaceOne(c, '&', "&amp;");
    ReplaceOne(c, '"', "&quot;");
    ReplaceOne(c, '<', "&lt;");
    if c == '&' { ReplaceAbsent("&amp;", '"', "&quot;"); ReplaceAbsent("&amp;", '<', "&lt;"); }
    if c == '"' { ReplaceAbsent("&quot;", '<', "&lt;"); }
    ReplaceJoin([c], rest, '&', "&amp;");
    ReplaceJoin(first, Replace(rest, '&', "&amp;"), '"', "&quot;");
    ReplaceJoin(second, Replace(Replace(rest, '&', "&amp;"), '"', "&quot;"), '<', "&lt;");
  }

  predicate Begins(s: string, prefix: string) {
    |prefix| <= |s| && s[..|prefix|] == prefix
  }

  /** An attribute value as a browser reads it, for the references the passes write. */
  function ReadAttr(s: string): string {
    if s == "" then ""
    else if Begins(s, "&amp;") then "&" + ReadAttr(s[5..])
    else if Begins(s, "&quot;") then ['"'] + ReadAttr(s[6..])
    else if Begins(s, "&lt;") then "<" + ReadAttr(s[4..])
    else [s[0]] + ReadAttr(s[1..])
  }

  lemma ReadAttrStart(c: char, rest: string)
    ensures ReadAttr(AttrOf(c) + rest) == [c] + ReadAttr(rest)
  {
    var s := AttrOf(c) + rest;
    assert s[|AttrOf(c)|..] == rest && s[..|AttrOf(c)|] == AttrOf(c);
    if c == '"' { assert s[..5][1] == 'q' && "&amp;"[1] == 'a'; }
    if c == '<' { assert |s| >= 5 ==> s[..5][1] == 'l'; assert |s| >= 6 ==> s[..6][1] == 'l'; }
    if |AttrOf(c)| == 1 { assert s[0] != '&'; NoReference(s); }
  }

  lemma NoReference(s: string)
    requires s != "" && s[0] != '&'
    ensures !Begins(s, "&amp;") && !Begins(s, "&quot;") && !Begins(s, "&lt;")
  {
    assert |s| >= 5 ==> s[..5][0] == s[0];
    assert |s| >= 6 ==> s[..6][0] == s[0];
    assert |s| >= 4 ==> s[..4][0] == s[0];
  }

  lemma AttrOfIsSafe(c: char)
    ensures '"' !in AttrOf(c) && '<' !in AttrOf(c) && (c != '>' ==> '>' !in AttrOf(c))
  {
  }

  /** Nothing in an escaped value ends the attribute or opens a tag, and no bracket is added. */
  lemma {:induction false} AttrIsSafe(v: string)
    ensures '"' !in Attr(v) && '<' !in Attr(v) && ('>' !in v ==> '>' !in Attr(v))
  {
    if v != "" {
      assert v == [v[0]] + v[1..];
      AttrIsSafe(v[1..]);
      AttrStart(v[0], v[1..]);
      AttrOfIsSafe(v[0]);
    }
  }

  /** A browser reads back the escaped value. */
  lemma {:induction false} AttrReadsBack(v: string)
    ensures ReadAttr(Attr(v)) == v
    ensures '"' !in Attr(v) && '<' !in Attr(v)
    ensures '>' !in v ==> '>' !in Attr(v)
  {
    AttrIsSafe(v);
    if v != "" {
      assert v == [v[0]] + v[1..];
      AttrReadsBack(v[1..]);
      AttrStart(v[0], v[1..]);
      ReadAttrStart(v[0], Attr(v[1..]));
    }
  }

  // ---------------------------------------------------------------- the block

  const END := "</script>"

  function Attribute(name: string, value: string): string {
    name + "=\"" + value + "\""
  }

  /** The start tag without its closing bracket. */
  function StartTag(key: string, ok: bool): string {
    "<script" + (Attribute(" type", "application/json")
                 + (Attribute(" data-sr-edge", Attr(key)) + Attribute(" data-ok", if ok then "1" else "0")))
  }

  function Data(read: Option<string>): string {
    if read.Some? then SafeJson(read.value) else ""
  }

  /** A read's data block; a failed read (None) leaves it empty. */
  function EdgeBlock(key: string, read: Option<string>): string {
    StartTag(key, read.Some?) + (">" + (Data(read) + END))
  }

  /** What an HTML parser takes as the script's data: from the end of the start tag to the next `<`. */
  function ScriptData(block: string): string {
    var i := Strings.IndexOf(block, '>');
    if i == |block| then "" else var rest := block[i + 1..]; rest[..Strings.IndexOf(rest, '<')]
  }

  lemma IndexOfJoin(a: string, b: string, c: char)
    requires c !in a && b != "" && b[0] == c
    ensures Strings.IndexOf(a + b, c) == |a|
  {
    Strings.IndexIs(a + b, c, |a|);
  }

  predicate Absent(c: char, s: string) {
    forall i :: 0 <= i < |s| ==> s[i] != c
  }

  lemma AbsentJoin(c: char, a: string, b: string)
    requires Absent(c, a) && Absent(c, b)
    ensures Absent(c, a + b)
  {
  }

  lemma AttributeIsOpen(name: string, value: string)
    requires Absent('>', name) && Absent('>', value)
    ensures Absent('>', Attribute(name, value))
  {
    AbsentJoin('>', name, "=\"");
    AbsentJoin('>', name + "=\"", value);
    AbsentJoin('>', name + "=\"" + value, "\"");
  }

  lemma StartTagIsOpen(key: string, ok: bool)
    requires '>' !in key
    ensures Absent('>', StartTag(key, ok))
  {
    AttrReadsBack(key);
    var kind, name := Attribute(" type", "application/json"), Attribute(" data-sr-edge", Attr(key));
    var state := Attribute(" data-ok", if ok then "1" else "0");
    AttributeIsOpen(" type", "application/json");
    AttributeIsOpen(" data-sr-edge", Attr(key));
    AttributeIsOpen(" data-ok", if ok then "1" else "0");
    AbsentJoin('>', name, state);
    AbsentJoin('>', kind, name + state);
    AbsentJoin('>', "<script", kind + (name + state));
  }

  lemma DataHasNoTag(read: Option<string>)
    ensures '<' !in Data(read)
  {
    forall i | 0 <= i < |Data(read)| ensures Data(read)[i] != '<' { SafeIsPlain(read.value, i); }
  }

  /** A block's script data is its own data, to the end: nothing in it ends the element early. */
  lemma BlockCarriesData(key: string, read: Option<string>)
    requires '>' !in key
    ensures ScriptData(EdgeBlock(key, read)) == Data(read) && (read == None ==> Data(read) == "")
  {
    StartTagIsOpen(key, read.Some?);
    DataHasNoTag(read);
    DataAfterTag(StartTag(key, read.Some?), Data(read));
  }

  lemma DataAfterTag(tag: string, data: string)
    requires Absent('>', tag) && '<' !in data
    ensures ScriptData(tag + (">" + (data + END))) == data
  {
    IndexOfJoin(tag, ">" + (data + END), '>');
    assert (tag + (">" + (data + END)))[|tag| + 1..] == data + END;
    IndexOfJoin(data, END, '<');
    assert (data + END)[..|data|] == data;
  }

  /** A JSON answer is read back from its block with its value. */
  lemma BlockReadsBack(key: string, text: string)
    requires '>' !in key && Decode(text).Some?
    ensures Decode(ScriptData(EdgeBlock(key, Some(text)))) == Decode(text)
  {
    BlockCarriesData(key, Some(text));
    SafeJsonKeepsValue(text);
  }

  // ---------------------------------------------------------------- the block's attributes

  lemma QuotedPart(before: string, value: string, after: string)
    requires '"' !in before && '"' !in value
    ensures
      Strings.Split(before + "\"" + value + "\"" + after, '"') ==
        [before, value] + Strings.Split(after, '"')
  {
    Strings.SplitAfter(before, '"', value + "\"" + after);
    Strings.SplitAfter(value, '"', after);
    assert before + "\"" + value + "\"" + after == before + ['"'] + (value + ['"'] + after);
    assert value + "\"" + after == value + ['"'] + after;
    assert [before] + ([value] + Strings.Split(after, '"')) == [before, value] + Strings.Split(after, '"');
  }

  /**
   * Read as attributes in quotes, a block's start tag says that its data is JSON, names the read it answers, and says
   * whether that read succeeded.
   */
  lemma BlockNamesItsRead(key: string, ok: bool)
    ensures
      var parts := Strings.Split(StartTag(key, ok), '"');
      && |parts| == 7
      && parts[0] == "<script type=" && parts[1] == "application/json"
      && parts[2] == " data-sr-edge=" && ReadAttr(parts[3]) == key
      && parts[4] == " data-ok=" && parts[5] == (if ok then "1" else "0") && parts[6] == ""
  {
    var state := if ok then "1" else "0";
    AttrReadsBack(key);
    var rest := Attribute(" data-sr-edge", Attr(key)) + Attribute(" data-ok", state);
    QuotedPart("<script type=", "application/json", rest);
    QuotedPart(" data-sr-edge=", Attr(key), Attribute(" data-ok", state));
    QuotedPart(" data-ok=", state, "");
    TagParts(Attr(key), state);
  }

  lemma TagParts(value: string, state: string)
    ensures
      "<script" + (Attribute(" type", "application/json")
          + (Attribute(" data-sr-edge", value) + Attribute(" data-ok", state)))
        == "<script type=" + "\"" + "application/json" + "\""
             + (Attribute(" data-sr-edge", value) + Attribute(" data-ok", state))
    ensures
      Attribute(" data-sr-edge", value) + Attribute(" data-ok", state)
        == " data-sr-edge=" + "\"" + value + "\"" + Attribute(" data-ok", state)
    ensures Attribute(" data-ok", state) == " data-ok=" + "\"" + state + "\"" + ""
  {
    assert "<script" + " type" == "<script type";
    assert "=\"" == "=" + "\"";
  }
}
