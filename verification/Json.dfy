/**
 * JSON texts and the values they stand for (RFC 8259): tokens, with string literals decoded to UTF-16 units, and the
 * grammar over tokens. A number stands for its own spelling.
 */
module Json {
  import opened Wrappers

  type Units = seq<nat>

  datatype Token = Mark(c: char) | Text(units: Units) | Number(spelling: string) | Word(name: string)

  datatype Value =
    | Null
    | Bool(b: bool)
    | Num(spelling: string)
    | Str(units: Units)
    | Array(items: seq<Value>)
    | Object(members: seq<(Units, Value)>)

  // ---------------------------------------------------------------- tokens

  predicate IsBlank(c: char) {
    c == ' ' || c == '\t' || c == '\n' || c == '\r'
  }

  predicate IsMark(c: char) {
    c == '[' || c == ']' || c == '{' || c == '}' || c == ',' || c == ':'
  }

  predicate IsDigit(c: char) {
    '0' <= c <= '9'
  }

  predicate IsNumberChar(c: char) {
    IsDigit(c) || c == '-' || c == '+' || c == '.' || c == 'e' || c == 'E'
  }

  predicate IsLetter(c: char) {
    'a' <= c <= 'z'
  }

  /** How many characters from the start are of one kind. */
  function RunLength(s: string, kind: char -> bool): (n: nat)
    ensures n <= |s| && (n < |s| ==> !kind(s[n]))
    ensures forall i :: 0 <= i < n ==> kind(s[i])
  {
    if s == "" || !kind(s[0]) then 0 else 1 + RunLength(s[1..], kind)
  }

  function AfterDigits(s: string): string {
    s[RunLength(s, IsDigit)..]
  }

  predicate IsExponent(s: string) {
    || s == ""
    || ((s[0] == 'e' || s[0] == 'E')
        && var t := if |s| > 1 && (s[1] == '+' || s[1] == '-') then s[2..] else s[1..];
        t != "" && AfterDigits(t) == "")
  }

  predicate IsFraction(s: string) {
    IsExponent(s) || (s != "" && s[0] == '.' && AfterDigits(s[1..]) != s[1..] && IsExponent(AfterDigits(s[1..])))
  }

  /** A number in JSON's spelling. */
  predicate IsNumber(s: string) {
    var t := if s != "" && s[0] == '-' then s[1..] else s;
    && t != "" && IsDigit(t[0])
    && (if t[0] == '0' then IsFraction(t[1..]) else IsFraction(AfterDigits(t)))
  }

  function HexValue(c: char): Option<nat> {
    if '0' <= c <= '9' then Some(c as nat - '0' as nat)
    else if 'a' <= c <= 'f' then Some(c as nat - 'a' as nat + 10)
    else if 'A' <= c <= 'F' then Some(c as nat - 'A' as nat + 10)
    else None
  }

  /** The unit that follows a backslash and a `u`. */
  function HexUnit(s: string): Option<nat>
    requires |s| >= 4
  {
    var a, b, c, d := HexValue(s[0]), HexValue(s[1]), HexValue(s[2]), HexValue(s[3]);
    if a.Some? && b.Some? && c.Some? && d.Some? then Some(((a.value * 16 + b.value) * 16 + c.value) * 16 + d.value)
    else None
  }

  function SimpleEscape(c: char): Option<nat> {
    match c
    case '"' => Some(0x22)
    case '\\' => Some(0x5C)
    case '/' => Some(0x2F)
    case 'b' => Some(0x08)
    case 'f' => Some(0x0C)
    case 'n' => Some(0x0A)
    case 'r' => Some(0x0D)
    case 't' => Some(0x09)
    case _ => None
  }

  /** A character as UTF-16 units. */
  function UnitsOf(c: char): Units {
    var n := c as nat;
    if n < 0x10000 then [n] else [0xD800 + (n - 0x10000) / 0x400, 0xDC00 + (n - 0x10000) % 0x400]
  }

  datatype Literal = Bad | Good(units: Units, rest: string)

  function After(units: Units, rest: Literal): Literal {
    if rest.Good? then Good(units + rest.units, rest.rest) else Bad
  }

  /** The rest of a string literal, after its opening quote. */
  function ReadLiteral(s: string): (r: Literal)
    ensures r.Good? ==> |r.rest| < |s|
  {
    if s == "" || s[0] < ' ' then Bad
    else if s[0] == '"' then Good([], s[1..])
    else if s[0] != '\\' then After(UnitsOf(s[0]), ReadLiteral(s[1..]))
    else if |s| < 2 then Bad
    else if s[1] == 'u' then
      if |s| < 6 || HexUnit(s[2..6]) == None then Bad else After([HexUnit(s[2..6]).value], ReadLiteral(s[6..]))
    else if SimpleEscape(s[1]) == None then Bad
    else After([SimpleEscape(s[1]).value], ReadLiteral(s[2..]))
  }

  datatype Lexed = Wrong | Blank(rest: string) | Read(token: Token, rest: string)

  function Next(s: string): (r: Lexed)
    requires s != ""
    ensures !r.Wrong? ==> |r.rest| < |s|
  {
    if IsBlank(s[0]) then Blank(s[1..])
    else if IsMark(s[0]) then Read(Mark(s[0]), s[1..])
    else if s[0] == '"' then
      var literal := ReadLiteral(s[1..]);
      if literal.Good? then Read(Text(literal.units), literal.rest) else Wrong
    else if IsLetter(s[0]) then
      var n := RunLength(s, IsLetter);
      if s[..n] == "true" || s[..n] == "false" || s[..n] == "null" then Read(Word(s[..n]), s[n..]) else Wrong
    else if IsNumberChar(s[0]) then
      var n := RunLength(s, IsNumberChar);
      if IsNumber(s[..n]) then Read(Number(s[..n]), s[n..]) else Wrong
    else Wrong
  }

  function Lex(s: string): Option<seq<Token>>
    decreases |s|
  {
    if s == "" then Some([])
    else
      var r := Next(s);
      if r.Wrong? then None
      else
        var rest := Lex(r.rest);
        if r.Read? && rest.Some? then Some([r.token] + rest.value) else rest
  }

  // ---------------------------------------------------------------- the grammar

  datatype Parsed<T> = Failed | Done(value: T, rest: seq<Token>)

  function ParseValue(ts: seq<Token>): (r: Parsed<Value>)
    ensures r.Done? ==> |r.rest| < |ts|
    decreases |ts|, 0
  {
    if ts == [] then Failed
    else
      match ts[0]
      case Text(units) => Done(Str(units), ts[1..])
      case Number(spelling) => Done(Num(spelling), ts[1..])
      case Word(name) => Done(if name == "null" then Null else Bool(name == "true"), ts[1..])
      case Mark(c) =>
        if c == '[' then
          if |ts| > 1 && ts[1] == Mark(']') then Done(Array([]), ts[2..])
          else
            var items := ParseItems(ts[1..]);
            if items.Done? then Done(Array(items.value), items.rest) else Failed
        else if c == '{' then
          if |ts| > 1 && ts[1] == Mark('}') then Done(Object([]), ts[2..])
          else
            var members := ParseMembers(ts[1..]);
            if members.Done? then Done(Object(members.value), members.rest) else Failed
        else Failed
  }

  function ParseItems(ts: seq<Token>): (r: Parsed<seq<Value>>)
    ensures r.Done? ==> |r.rest| < |ts|
    decreases |ts|, 1
  {
    var first := ParseValue(ts);
    if first.Failed? || first.rest == [] then Failed
    else if first.rest[0] == Mark(']') then Done([first.value], first.rest[1..])
    else if first.rest[0] != Mark(',') then Failed
    else
      var others := ParseItems(first.rest[1..]);
      if others.Done? then Done([first.value] + others.value, others.rest) else Failed
  }

  function ParseMembers(ts: seq<Token>): (r: Parsed<seq<(Units, Value)>>)
    ensures r.Done? ==> |r.rest| < |ts|
    decreases |ts|, 1
  {
    if |ts| < 2 || !ts[0].Text? || ts[1] != Mark(':') then Failed
    else
      var first := ParseValue(ts[2..]);
      if first.Failed? || first.rest == [] then Failed
      else if first.rest[0] == Mark('}') then Done([(ts[0].units, first.value)], first.rest[1..])
      else if first.rest[0] != Mark(',') then Failed
      else
        var others := ParseMembers(first.rest[1..]);
        if others.Done? then Done([(ts[0].units, first.value)] + others.value, others.rest) else Failed
  }

  /** The value of a JSON text, if it is one. */
  function Decode(s: string): Option<Value> {
    var tokens := Lex(s);
    if tokens == None then None
    else
      var parsed := ParseValue(tokens.value);
      if parsed.Done? && parsed.rest == [] then Some(parsed.value) else None
  }
}
