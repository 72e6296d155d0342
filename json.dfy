/** `JSON.parse` and `JSON.stringify` (RFC 8259, with the escaping rules of
    ECMAScript's QuoteJSONString).  The parser accepts every JSON text;
    `Stringify` covers the one shape the core writes, an object whose values
    are strings. */
module Json {
  import opened Wrappers
  import JsObject
  import Text

  /** A parsed JSON value.  A number keeps its literal text: the model does
      not convert it to a binary float. */
  datatype Value =
    | Null
    | Bool(b: bool)
    | Number(literal: string)
    | String(s: string)
    | Array(items: seq<Value>)
    | Object(members: JsObject.Entries<Value>)

  // ---- lexical helpers -----------------------------------------------------

  predicate IsWs(c: char) {
    c == ' ' || c == '\t' || c == '\n' || c == '\r'
  }

  predicate IsDigit(c: char) {
    '0' <= c <= '9'
  }

  /** How many decimal digits `s` starts with. */
  function LeadingDigits(s: string): (n: nat)
    ensures n <= |s|
    ensures forall i :: 0 <= i < n ==> IsDigit(s[i])
    ensures n < |s| ==> !IsDigit(s[n])
  {
    if s != [] && IsDigit(s[0]) then 1 + LeadingDigits(s[1..]) else 0
  }

  function HexValue(c: char): (r: Option<nat>)
    ensures r.Some? ==> r.value < 16
  {
    if '0' <= c <= '9' then Some(c as int - 48)
    else if 'a' <= c <= 'f' then Some(c as int - 97 + 10)
    else if 'A' <= c <= 'F' then Some(c as int - 65 + 10)
    else None
  }

  /** The code unit written by the four hex digits that `s` starts with. */
  function Hex4(s: string): (r: Option<nat>)
    requires |s| >= 4
    ensures r.Some? ==> r.value < 0x10000
  {
    match (HexValue(s[0]), HexValue(s[1]), HexValue(s[2]), HexValue(s[3]))
    case (Some(a), Some(b), Some(c), Some(d)) => Some(((a * 16 + b) * 16 + c) * 16 + d)
    case _ => None
  }

  predicate IsHighSurrogate(u: int) { 0xD800 <= u <= 0xDBFF }
  predicate IsLowSurrogate(u: int) { 0xDC00 <= u <= 0xDFFF }

  // ---- parsing -------------------------------------------------------------

  /** The escape after a backslash, and the text after it.  A `\u` escape
      that leaves a lone surrogate is refused: the model's characters are
      Unicode scalar values. */
  function ParseEscape(s: string): (r: Option<(char, string)>)
    ensures r.Some? ==> |r.value.1| < |s|
  {
    if s == [] then None
    else if s[0] == '"' then Some(('"', s[1..]))
    else if s[0] == '\\' then Some(('\\', s[1..]))
    else if s[0] == '/' then Some(('/', s[1..]))
    else if s[0] == 'b' then Some(('\U{8}', s[1..]))
    else if s[0] == 'f' then Some(('\U{C}', s[1..]))
    else if s[0] == 'n' then Some(('\n', s[1..]))
    else if s[0] == 'r' then Some(('\r', s[1..]))
    else if s[0] == 't' then Some(('\t', s[1..]))
    else if s[0] == 'u' && |s| >= 5 then
      match Hex4(s[1..5])
      case None => None
      case Some(u) =>
        if IsHighSurrogate(u) then
          if |s| >= 11 && s[5] == '\\' && s[6] == 'u' then
            match Hex4(s[7..11])
            case Some(l) =>
              if IsLowSurrogate(l) then Some(((0x10000 + (u - 0xD800) * 0x400 + (l - 0xDC00)) as char, s[11..]))
              else None
            case None => None
          else None
        else if IsLowSurrogate(u) then None
        else Some((u as char, s[5..]))
    else None
  }

  /** The characters of a string literal after its opening quote, and the
      text after its closing quote. */
  function ParseStringBody(s: string): (r: Option<(string, string)>)
    ensures r.Some? ==> |r.value.1| < |s|
    decreases |s|
  {
    if s == [] then None
    else if s[0] == '"' then Some(([], s[1..]))
    else if s[0] == '\\' then
      match ParseEscape(s[1..])
      case None => None
      case Some((c, rest)) =>
        match ParseStringBody(rest)
        case None => None
        case Some((body, rest')) => Some(([c] + body, rest'))
    else if s[0] < ' ' then None
    else
      match ParseStringBody(s[1..])
      case None => None
      case Some((body, rest')) => Some(([s[0]] + body, rest'))
  }

  /** The length of the number literal `s` starts with (0 when there is none):
      `-? (0 | [1-9][0-9]*) (. [0-9]+)? ([eE] [+-]? [0-9]+)?`. */
  function NumberLength(s: string): (n: nat)
    ensures n <= |s|
  {
    var i0 := if s != [] && s[0] == '-' then 1 else 0;
    var intLen := if i0 < |s| && s[i0] == '0' then 1 else LeadingDigits(s[i0..]);
    if intLen == 0 then 0
    else
      var i1 := i0 + intLen;
      var fracLen := if i1 < |s| && s[i1] == '.' then LeadingDigits(s[i1 + 1..]) else 0;
      if i1 < |s| && s[i1] == '.' && fracLen == 0 then 0
      else
        var i2 := if i1 < |s| && s[i1] == '.' then i1 + 1 + fracLen else i1;
        if i2 < |s| && (s[i2] == 'e' || s[i2] == 'E') then
          var i3 := if i2 + 1 < |s| && (s[i2 + 1] == '+' || s[i2 + 1] == '-') then i2 + 2 else i2 + 1;
          var expLen := LeadingDigits(s[i3..]);
          if expLen == 0 then 0 else i3 + expLen
        else i2
  }

  predicate StartsWith(s: string, p: string) {
    |p| <= |s| && s[..|p|] == p
  }

  /** The tokens of RFC 8259: six structural characters, strings, numbers and
      the three literal names. */
  datatype Token =
    | LeftBrace | RightBrace | LeftBracket | RightBracket | Colon | Comma
    | Str(s: string) | Num(literal: string) | TrueName | FalseName | NullName

  /** The tokens of `s`, white space between them dropped; `None` where a
      character cannot start a token or a string literal is malformed. */
  function Lex(s: string): Option<seq<Token>>
    decreases |s|
  {
    if s == [] then Some([])
    else if IsWs(s[0]) then Lex(s[1..])
    else
      match LexToken(s)
      case None => None
      case Some((t, rest)) => Prepend(t, Lex(rest))
  }

  /** The token `s` starts with, and the text after it. */
  function LexToken(s: string): (r: Option<(Token, string)>)
    requires s != []
    ensures r.Some? ==> |r.value.1| < |s|
  {
    if s[0] == '{' then Some((LeftBrace, s[1..]))
    else if s[0] == '}' then Some((RightBrace, s[1..]))
    else if s[0] == '[' then Some((LeftBracket, s[1..]))
    else if s[0] == ']' then Some((RightBracket, s[1..]))
    else if s[0] == ':' then Some((Colon, s[1..]))
    else if s[0] == ',' then Some((Comma, s[1..]))
    else if s[0] == '"' then
      match ParseStringBody(s[1..])
      case None => None
      case Some((str, rest)) => Some((Str(str), rest))
    else if StartsWith(s, "null") then Some((NullName, s[4..]))
    else if StartsWith(s, "true") then Some((TrueName, s[4..]))
    else if StartsWith(s, "false") then Some((FalseName, s[5..]))
    else
      var n := NumberLength(s);
      if n == 0 then None else Some((Num(s[..n]), s[n..]))
  }

  function Prepend(t: Token, ts: Option<seq<Token>>): Option<seq<Token>> {
    match ts
    case None => None
    case Some(ts') => Some([t] + ts')
  }

  /** A value at the start of `ts`, and the tokens after it. */
  function ParseValue(ts: seq<Token>): (r: Option<(Value, seq<Token>)>)
    ensures r.Some? ==> |r.value.1| < |ts|
    decreases |ts|, 0
  {
    if ts == [] then None
    else match ts[0]
      case LeftBrace => ParseObject(ts[1..])
      case LeftBracket => ParseArray(ts[1..])
      case Str(str) => Some((String(str), ts[1..]))
      case Num(lit) => Some((Number(lit), ts[1..]))
      case TrueName => Some((Bool(true), ts[1..]))
      case FalseName => Some((Bool(false), ts[1..]))
      case NullName => Some((Null, ts[1..]))
      case _ => None
  }

  /** The rest of an array after `[`. */
  function ParseArray(ts: seq<Token>): (r: Option<(Value, seq<Token>)>)
    ensures r.Some? ==> |r.value.1| < |ts|
    decreases |ts|, 2
  {
    if ts != [] && ts[0] == RightBracket then Some((Array([]), ts[1..]))
    else
      match ParseElements(ts)
      case None => None
      case Some((items, rest)) => Some((Array(items), rest))
  }

  /** `value (, value)* ]` */
  function ParseElements(ts: seq<Token>): (r: Option<(seq<Value>, seq<Token>)>)
    ensures r.Some? ==> |r.value.1| < |ts|
    decreases |ts|, 1
  {
    match ParseValue(ts)
    case None => None
    case Some((v, rest)) =>
      if rest != [] && rest[0] == RightBracket then Some(([v], rest[1..]))
      else if rest != [] && rest[0] == Comma then
        match ParseElements(rest[1..])
        case None => None
        case Some((vs, rest')) => Some(([v] + vs, rest'))
      else None
  }

  /** The rest of an object after `{`.  Members are assigned in order, so a
      repeated key keeps its first position and its last value. */
  function ParseObject(ts: seq<Token>): (r: Option<(Value, seq<Token>)>)
    ensures r.Some? ==> |r.value.1| < |ts|
    decreases |ts|, 2
  {
    if ts != [] && ts[0] == RightBrace then Some((Object([]), ts[1..]))
    else
      match ParseMembers(ts)
      case None => None
      case Some((ms, rest)) => Some((Object(JsObject.PutAll([], ms)), rest))
  }

  /** `string : value (, string : value)* }`, as the list of members read. */
  function ParseMembers(ts: seq<Token>): (r: Option<(JsObject.Entries<Value>, seq<Token>)>)
    ensures r.Some? ==> |r.value.1| < |ts|
    decreases |ts|, 1
  {
    if |ts| < 2 || !ts[0].Str? || ts[1] != Colon then None
    else
      match ParseValue(ts[2..])
      case None => None
      case Some((v, rest)) =>
        if rest != [] && rest[0] == RightBrace then Some(([(ts[0].s, v)], rest[1..]))
        else if rest != [] && rest[0] == Comma then
          match ParseMembers(rest[1..])
          case None => None
          case Some((ms, rest')) => Some(([(ts[0].s, v)] + ms, rest'))
        else None
  }

  /** `JSON.parse(text)`: `None` where it throws a SyntaxError. */
  function Parse(text: string): Option<Value> {
    match Lex(text)
    case None => None
    case Some(ts) =>
      match ParseValue(ts)
      case Some((v, rest)) => if rest == [] then Some(v) else None
      case None => None
  }

  // ---- stringify -----------------------------------------------------------

  function HexDigit(n: nat): (c: char)
    requires n < 16
    ensures HexValue(c) == Some(n)
    ensures '0' <= c <= 'f'
  {
    if n < 10 then (48 + n) as char else (97 + n - 10) as char
  }

  /** One character as `JSON.stringify` writes it inside quotes. */
  function QuoteChar(c: char): string {
    if c == '\U{8}' then "\\b"
    else if c == '\t' then "\\t"
    else if c == '\n' then "\\n"
    else if c == '\U{C}' then "\\f"
    else if c == '\r' then "\\r"
    else if c == '"' then "\\\""
    else if c == '\\' then "\\\\"
    else if c < ' ' then "\\u00" + [HexDigit(c as int / 16), HexDigit(c as int % 16)]
    else [c]
  }

  function QuoteBody(s: string): string {
    if s == [] then "" else QuoteChar(s[0]) + QuoteBody(s[1..])
  }

  /** `JSON.stringify` of a string. */
  function Quote(s: string): string {
    "\"" + QuoteBody(s) + "\""
  }

  function MemberText(e: (string, string)): string {
    Quote(e.0) + ":" + Quote(e.1)
  }

  function MembersText(es: JsObject.Entries<string>): string {
    if es == [] then ""
    else if |es| == 1 then MemberText(es[0])
    else MemberText(es[0]) + "," + MembersText(es[1..])
  }

  /** `JSON.stringify` of an object whose values are strings. */
  function Stringify(es: JsObject.Entries<string>): string {
    "{" + MembersText(es) + "}"
  }

  /** The JSON value of such an object. */
  function FromStrings(es: JsObject.Entries<string>): (r: JsObject.Entries<Value>)
    ensures |r| == |es|
    ensures forall i :: 0 <= i < |es| ==> r[i] == (es[i].0, String(es[i].1))
  {
    seq(|es|, i requires 0 <= i < |es| => (es[i].0, String(es[i].1)))
  }

  /** The object's entries when `v` is an object whose values are all strings. */
  function AsStringObject(v: Value): (r: Option<JsObject.Entries<string>>)
    ensures r.Some? ==> v == Object(FromStrings(r.value))
  {
    if v.Object? && forall i :: 0 <= i < |v.members| ==> v.members[i].1.String? then
      var es := seq(|v.members|, i requires 0 <= i < |v.members| => (v.members[i].0, v.members[i].1.s));
      assert FromStrings(es) == v.members;
      Some(es)
    else None
  }

  // ---- round trip ----------------------------------------------------------

  lemma ParseQuoteChar(c: char, tail: string)
    ensures QuoteChar(c) != [] && QuoteChar(c)[0] != '"'
    ensures QuoteChar(c)[0] == '\\' ==> ParseEscape(QuoteChar(c)[1..] + tail) == Some((c, tail))
    ensures QuoteChar(c)[0] != '\\' ==> QuoteChar(c) == [c] && c >= ' '
  {
    if c < ' ' && c != '\U{8}' && c != '\t' && c != '\n' && c != '\U{C}' && c != '\r' {
      var q := QuoteChar(c)[1..] + tail;
      assert q[1..5] == ['0', '0', HexDigit(c as int / 16), HexDigit(c as int % 16)];
      assert q[5..] == tail;
    }
  }

  /** One written character, then more of the string body. */
  lemma ParseCharStep(c: char, more: string)
    ensures ParseStringBody(QuoteChar(c) + more) ==
            match ParseStringBody(more)
            case None => None
            case Some((body, rest)) => Some(([c] + body, rest))
  {
    var q := QuoteChar(c);
    ParseQuoteChar(c, more);
    if q[0] == '\\' {
      assert (q + more)[1..] == q[1..] + more;
    } else {
      assert (q + more)[1..] == more;
    }
  }

  lemma {:induction false} ParseQuoteBody(s: string, tail: string)
    ensures ParseStringBody(QuoteBody(s) + "\"" + tail) == Some((s, tail))
  {
    if s == [] {
      assert QuoteBody(s) + "\"" + tail == "\"" + tail;
    } else {
      var more := QuoteBody(s[1..]) + "\"" + tail;
      assert QuoteBody(s) + "\"" + tail == QuoteChar(s[0]) + more;
      ParseCharStep(s[0], more);
      ParseQuoteBody(s[1..], tail);
      assert [s[0]] + s[1..] == s;
    }
  }

  /** A token that is not preceded by white space. */
  lemma LexStep(s: string, t: Token, rest: string)
    requires s != [] && !IsWs(s[0]) && LexToken(s) == Some((t, rest))
    ensures Lex(s) == Prepend(t, Lex(rest))
  {
  }

  /** The string token a stringified string starts with. */
  lemma LexTokenQuote(s: string, tail: string)
    ensures LexToken(Quote(s) + tail) == Some((Str(s), tail))
  {
    var body := QuoteBody(s) + "\"" + tail;
    assert Quote(s) + tail == ['"'] + body;
    ParseQuoteBody(s, tail);
  }

  /** A stringified string lexes as one string token. */
  lemma LexQuote(s: string, tail: string)
    ensures Lex(Quote(s) + tail) == Prepend(Str(s), Lex(tail))
  {
    LexTokenQuote(s, tail);
    assert (Quote(s) + tail)[0] == '"';
    LexStep(Quote(s) + tail, Str(s), tail);
  }

  lemma LexPunctuation(c: char, tail: string)
    requires c in "{}:,"
    ensures Lex([c] + tail) == Prepend(
      if c == '{' then LeftBrace else if c == '}' then RightBrace else if c == ':' then Colon else Comma,
      Lex(tail))
  {
    assert ([c] + tail)[1..] == tail;
  }

  /** The tokens `Stringify` writes for the members of an object. */
  function MemberTokens(es: JsObject.Entries<string>): seq<Token> {
    if es == [] then []
    else if |es| == 1 then [Str(es[0].0), Colon, Str(es[0].1)]
    else [Str(es[0].0), Colon, Str(es[0].1), Comma] + MemberTokens(es[1..])
  }

  /** A stringified member, then whatever follows. */
  lemma LexMemberText(k: string, v: string, more: string)
    ensures Lex(MemberText((k, v)) + more) == Prepend2([Str(k), Colon, Str(v)], Lex(more))
  {
    var x := ":" + (Quote(v) + more);
    assert MemberText((k, v)) + more == Quote(k) + x;
    LexQuote(k, x);
    assert x == [':'] + (Quote(v) + more);
    LexPunctuation(':', Quote(v) + more);
    LexQuote(v, more);
    if Lex(more).Some? {
      var r := Lex(more).value;
      assert [Str(k), Colon, Str(v)] + r == [Str(k)] + ([Colon] + ([Str(v)] + r));
    }
  }

  lemma CommaJoinAssoc(a: string, b: string, tail: string)
    ensures (a + "," + b) + tail == a + ([','] + (b + tail))
  {
  }

  /** A first member, its comma, and the members after it. */
  lemma LexMembersCons(es: JsObject.Entries<string>, tail: string)
    requires |es| >= 2
    ensures Lex(MembersText(es) + tail) ==
            Prepend2([Str(es[0].0), Colon, Str(es[0].1), Comma], Lex(MembersText(es[1..]) + tail))
  {
    var k, v := es[0].0, es[0].1;
    var first, rest := MemberText((k, v)), MembersText(es[1..]) + tail;
    assert MembersText(es) == first + "," + MembersText(es[1..]);
    CommaJoinAssoc(first, MembersText(es[1..]), tail);
    assert MembersText(es) + tail == first + ([','] + rest);
    LexMemberText(k, v, [','] + rest);
    LexPunctuation(',', rest);
    var h := [Str(k), Colon, Str(v)];
    Prepend2Prepend(h, Comma, Lex(rest));
    assert h + [Comma] == [Str(k), Colon, Str(v), Comma];
  }

  lemma Prepend2Prepend(ts: seq<Token>, t: Token, rest: Option<seq<Token>>)
    ensures Prepend2(ts, Prepend(t, rest)) == Prepend2(ts + [t], rest)
  {
    if rest.Some? {
      assert ts + ([t] + rest.value) == (ts + [t]) + rest.value;
    }
  }

  lemma Prepend2Twice(a: seq<Token>, b: seq<Token>, rest: Option<seq<Token>>)
    ensures Prepend2(a, Prepend2(b, rest)) == Prepend2(a + b, rest)
  {
    if rest.Some? {
      assert a + (b + rest.value) == (a + b) + rest.value;
    }
  }

  lemma {:induction false} LexMembersText(es: JsObject.Entries<string>, tail: string)
    ensures Lex(MembersText(es) + tail) == Prepend2(MemberTokens(es), Lex(tail))
  {
    if es == [] {
      assert MembersText(es) + tail == tail;
      if Lex(tail).Some? {
        assert MemberTokens(es) + Lex(tail).value == Lex(tail).value;
      }
    } else if |es| == 1 {
      LexMemberText(es[0].0, es[0].1, tail);
      assert es[0] == (es[0].0, es[0].1);
    } else {
      LexMembersCons(es, tail);
      LexMembersText(es[1..], tail);
      Prepend2Twice([Str(es[0].0), Colon, Str(es[0].1), Comma], MemberTokens(es[1..]), Lex(tail));
    }
  }

  function Prepend2(ts: seq<Token>, rest: Option<seq<Token>>): Option<seq<Token>> {
    match rest
    case None => None
    case Some(r) => Some(ts + r)
  }

  /** The tokens of a stringified object. */
  lemma LexStringify(es: JsObject.Entries<string>)
    ensures Lex(Stringify(es)) == Some([LeftBrace] + MemberTokens(es) + [RightBrace])
  {
    assert Stringify(es) == "{" + (MembersText(es) + "}");
    LexPunctuation('{', MembersText(es) + "}");
    LexPunctuation('}', "");
    assert "}" == ['}'] + "";
    LexMembersText(es, "}");
    assert Lex("") == Some([]);
    assert [LeftBrace] + (MemberTokens(es) + ([RightBrace] + [])) == [LeftBrace] + MemberTokens(es) + [RightBrace];
  }

  /** One `string : string` member, then what follows it. */
  lemma ParseMemberStep(k: string, v: string, after: seq<Token>)
    requires after != [] && (after[0] == RightBrace || after[0] == Comma)
    ensures ParseMembers([Str(k), Colon, Str(v)] + after) ==
            if after[0] == RightBrace then Some(([(k, String(v))], after[1..]))
            else match ParseMembers(after[1..])
              case None => None
              case Some((ms, rest)) => Some(([(k, String(v))] + ms, rest))
  {
    var ts := [Str(k), Colon, Str(v)] + after;
    var vs := [Str(v)] + after;
    assert |ts| >= 2 && ts[0] == Str(k) && ts[1] == Colon && ts[2..] == vs;
    assert vs[1..] == after;
    assert ParseValue(vs) == Some((String(v), after));
  }

  lemma FromStringsCons(es: JsObject.Entries<string>)
    requires es != []
    ensures FromStrings(es) == [(es[0].0, String(es[0].1))] + FromStrings(es[1..])
  {
  }

  /** The tokens of a first member and its comma, then the members after it. */
  lemma MemberTokensCons(es: JsObject.Entries<string>)
    requires |es| >= 2
    ensures MemberTokens(es) + [RightBrace] ==
            [Str(es[0].0), Colon, Str(es[0].1)] + ([Comma] + (MemberTokens(es[1..]) + [RightBrace]))
  {
    RegroupTokens(Str(es[0].0), Colon, Str(es[0].1), Comma, MemberTokens(es[1..]), RightBrace);
  }

  lemma RegroupTokens<T>(a: T, b: T, c: T, d: T, m: seq<T>, e: T)
    ensures ([a, b, c, d] + m) + [e] == [a, b, c] + ([d] + (m + [e]))
  {
  }

  /** The member tokens read back as the same entries. */
  lemma {:induction false} ParseMemberTokens(es: JsObject.Entries<string>)
    requires es != []
    ensures ParseMembers(MemberTokens(es) + [RightBrace]) == Some((FromStrings(es), []))
  {
    FromStringsCons(es);
    if |es| == 1 {
      assert MemberTokens(es) + [RightBrace] == [Str(es[0].0), Colon, Str(es[0].1)] + [RightBrace];
      ParseMemberStep(es[0].0, es[0].1, [RightBrace]);
      assert [RightBrace][1..] == [];
      assert FromStrings(es) == [(es[0].0, String(es[0].1))];
    } else {
      MemberTokensCons(es);
      ParseMemberStep(es[0].0, es[0].1, [Comma] + (MemberTokens(es[1..]) + [RightBrace]));
      ParseMemberTokens(es[1..]);
    }
  }

  lemma DistinctFromStrings(es: JsObject.Entries<string>)
    ensures JsObject.DistinctKeys(FromStrings(es)) <==> JsObject.DistinctKeys(es)
  {
  }

  /** An object read from tokens never holds a key twice. */
  lemma ParseValueObjectDistinct(ts: seq<Token>)
    ensures ParseValue(ts).Some? && ParseValue(ts).value.0.Object? ==> JsObject.DistinctKeys(ParseValue(ts).value.0.members)
  {
    if ts != [] && ts[0] == LeftBrace {
      var rest := ts[1..];
      if !(rest != [] && rest[0] == RightBrace) && ParseMembers(rest).Some? {
        JsObject.PutAllDistinct([], ParseMembers(rest).value.0);
      }
    } else if ts != [] && ts[0] == LeftBracket {
      assert ParseArray(ts[1..]).Some? ==> ParseArray(ts[1..]).value.0.Array?;
    }
  }

  /** Every object `JSON.parse` returns has distinct keys. */
  lemma ParsedObjectDistinct(text: string)
    ensures Parse(text).Some? && Parse(text).value.Object? ==> JsObject.DistinctKeys(Parse(text).value.members)
  {
    if Lex(text).Some? {
      ParseValueObjectDistinct(Lex(text).value);
    }
  }


  /** The object tokens of distinct entries parse back as the object of those entries. */
  lemma ParseObjectTokens(es: JsObject.Entries<string>)
    requires JsObject.DistinctKeys(es)
    ensures ParseObject(MemberTokens(es) + [RightBrace]) == Some((Object(FromStrings(es)), []))
  {
    if es == [] {
      assert MemberTokens(es) + [RightBrace] == [RightBrace];
    } else {
      ParseMemberTokens(es);
      DistinctFromStrings(es);
      JsObject.PutAllFresh([], FromStrings(es));
      assert [] + FromStrings(es) == FromStrings(es);
    }
  }

  /** Text that starts with `{` can only parse as an object. */
  lemma ParseBraceIsObject(s: string)
    requires s != [] && s[0] == '{'
    ensures Parse(s).Some? ==> Parse(s).value.Object?
  {
    assert s == ['{'] + s[1..];
    LexPunctuation('{', s[1..]);
    if Lex(s).Some? {
      var ts := Lex(s).value;
      assert ts[0] == LeftBrace;
      assert ParseObject(ts[1..]).Some? ==> ParseObject(ts[1..]).value.0.Object?;
    }
  }

  /** `JSON.parse(JSON.stringify(config))` gives back the same entries, in the
      same order, as an object of strings. */
  lemma ParseStringify(es: JsObject.Entries<string>)
    requires JsObject.DistinctKeys(es)
    ensures Parse(Stringify(es)) == Some(Object(FromStrings(es)))
  {
    LexStringify(es);
    var ts := [LeftBrace] + MemberTokens(es) + [RightBrace];
    assert ts[1..] == MemberTokens(es) + [RightBrace];
    ParseObjectTokens(es);
    assert ParseValue(ts) == ParseObject(ts[1..]);
  }

  /** An object of strings is read back as exactly the entries it was built from. */
  lemma AsStringObjectFromStrings(es: JsObject.Entries<string>)
    ensures AsStringObject(Object(FromStrings(es))) == Some(es)
  {
    var r := AsStringObject(Object(FromStrings(es)));
    assert r.Some?;
    assert FromStrings(r.value) == FromStrings(es);
    assert r.value == es;
  }

  // ---- character range of the stringified text -----------------------------

  predicate EntriesAtMost(es: JsObject.Entries<string>, bound: int) {
    forall i :: 0 <= i < |es| ==> Text.AllAtMost(es[i].0, bound) && Text.AllAtMost(es[i].1, bound)
  }

  lemma AllAtMostAppend(a: string, b: string, bound: int)
    ensures Text.AllAtMost(a + b, bound) <==> Text.AllAtMost(a, bound) && Text.AllAtMost(b, bound)
  {
    if Text.AllAtMost(a + b, bound) {
      forall i | 0 <= i < |a| ensures a[i] as int <= bound {
        assert a[i] == (a + b)[i];
      }
      forall i | 0 <= i < |b| ensures b[i] as int <= bound {
        assert b[i] == (a + b)[|a| + i];
      }
    }
  }

  lemma QuoteCharRange(c: char, bound: int)
    requires bound >= 0x7F
    ensures Text.AllAtMost(QuoteChar(c), bound) <==> c as int <= bound
  {
    if c < ' ' && c != '\U{8}' && c != '\t' && c != '\n' && c != '\U{C}' && c != '\r' {
      var q := QuoteChar(c);
      assert q == ['\\', 'u', '0', '0', HexDigit(c as int / 16), HexDigit(c as int % 16)];
    } else if c < ' ' || c == '"' || c == '\\' {
      var q := QuoteChar(c);
      assert |q| == 2 && q[0] == '\\' && q[1] as int < 0x7F;
    } else {
      assert QuoteChar(c)[0] == c;
    }
  }

  lemma EntriesAtMostCons(es: JsObject.Entries<string>, bound: int)
    requires es != []
    ensures EntriesAtMost(es, bound) <==>
      Text.AllAtMost(es[0].0, bound) && Text.AllAtMost(es[0].1, bound) && EntriesAtMost(es[1..], bound)
  {
    if EntriesAtMost(es[1..], bound) && Text.AllAtMost(es[0].0, bound) && Text.AllAtMost(es[0].1, bound) {
      forall i | 0 < i < |es| ensures Text.AllAtMost(es[i].0, bound) && Text.AllAtMost(es[i].1, bound) {
        assert es[i] == es[1..][i - 1];
      }
    }
  }

  /** Escaping keeps every character at or above DEL as it is and writes the
      others with ASCII only, so the quoted text stays under a bound exactly
      when the string does. */
  lemma {:induction false} QuoteBodyRange(s: string, bound: int)
    requires bound >= 0x7F
    ensures Text.AllAtMost(QuoteBody(s), bound) <==> Text.AllAtMost(s, bound)
  {
    if s != [] {
      QuoteBodyRange(s[1..], bound);
      AllAtMostAppend(QuoteChar(s[0]), QuoteBody(s[1..]), bound);
      QuoteCharRange(s[0], bound);
      assert s == [s[0]] + s[1..];
      AllAtMostAppend([s[0]], s[1..], bound);
    }
  }

  lemma QuoteRange(s: string, bound: int)
    requires bound >= 0x7F
    ensures Text.AllAtMost(Quote(s), bound) <==> Text.AllAtMost(s, bound)
  {
    QuoteBodyRange(s, bound);
    AllAtMostAppend("\"", QuoteBody(s), bound);
    AllAtMostAppend("\"" + QuoteBody(s), "\"", bound);
  }

  lemma MemberTextRange(e: (string, string), bound: int)
    requires bound >= 0x7F
    ensures Text.AllAtMost(MemberText(e), bound) <==> Text.AllAtMost(e.0, bound) && Text.AllAtMost(e.1, bound)
  {
    QuoteRange(e.0, bound);
    QuoteRange(e.1, bound);
    AllAtMostAppend(Quote(e.0), ":", bound);
    AllAtMostAppend(Quote(e.0) + ":", Quote(e.1), bound);
  }

  lemma {:induction false} MembersTextRange(es: JsObject.Entries<string>, bound: int)
    requires bound >= 0x7F
    ensures Text.AllAtMost(MembersText(es), bound) <==> EntriesAtMost(es, bound)
  {
    if es == [] {
    } else if |es| == 1 {
      MemberTextRange(es[0], bound);
      EntriesAtMostCons(es, bound);
    } else {
      MemberTextRange(es[0], bound);
      MembersTextRange(es[1..], bound);
      AllAtMostAppend(MemberText(es[0]), ",", bound);
      AllAtMostAppend(MemberText(es[0]) + ",", MembersText(es[1..]), bound);
      EntriesAtMostCons(es, bound);
    }
  }

  /** `JSON.stringify` of a string-valued object stays under a bound (at least
      DEL) exactly when every key and value does. */
  lemma StringifyRange(es: JsObject.Entries<string>, bound: int)
    requires bound >= 0x7F
    ensures Text.AllAtMost(Stringify(es), bound) <==> EntriesAtMost(es, bound)
  {
    MembersTextRange(es, bound);
    AllAtMostAppend("{", MembersText(es), bound);
    AllAtMostAppend("{" + MembersText(es), "}", bound);
  }
}
