/**
 * `JSON.stringify` and `JSON.parse` as the session store uses them on the user
 * profile. A profile is modelled as its string-valued properties in insertion
 * order; `Stringify` produces exactly the text JavaScript produces for such an
 * object, and `Parse` reads that text back (it accepts the escapes of
 * JSON strings and rejects everything outside flat string-valued objects).
 */
module Json {
  import opened Common

  /** The user object of the login reply: property names and string values, in insertion order. */
  type Profile = seq<(string, string)>

  function HexDigitLower(n: nat): (c: char)
    requires n < 16
  {
    if n < 10 then ('0' as int + n) as char else ('a' as int + n - 10) as char
  }

  /** A hexadecimal digit, either case. */
  predicate IsHexDigit(c: char) {
    '0' <= c <= '9' || 'a' <= c <= 'f' || 'A' <= c <= 'F'
  }

  /** Value of one hexadecimal digit. */
  function HexValue(c: char): (r: nat)
    requires IsHexDigit(c)
    ensures r < 16
  {
    if '0' <= c <= '9' then c as int - '0' as int
    else if 'a' <= c <= 'f' then c as int - 'a' as int + 10
    else c as int - 'A' as int + 10
  }

  /** The characters `JSON.stringify` writes as a backslash and one letter, with that letter. */
  const ShortEscapes: map<char, char> := map[
    '"' := '"', '\\' := '\\', '\U{0008}' := 'b', '\U{000C}' := 'f', '\n' := 'n', '\r' := 'r', '\t' := 't']

  /** The one-letter escapes `JSON.parse` accepts, with the characters they stand for. */
  const ShortUnescapes: map<char, char> := map[
    '"' := '"', '\\' := '\\', '/' := '/', 'b' := '\U{0008}', 'f' := '\U{000C}', 'n' := '\n', 'r' := '\r', 't' := '\t']

  /** How `JSON.stringify` writes one character inside a string literal. */
  function EscapeChar(c: char): string {
    if c in ShortEscapes then ['\\', ShortEscapes[c]]
    else if (c as int) < 0x20 then ['\\', 'u', '0', '0', HexDigitLower(c as int / 16), HexDigitLower(c as int % 16)]
    else [c]
  }

  /** The characters of `x` as written inside a string literal, the closing quote, and then
      `after`: the text is built left to right with what follows it. */
  function StringText(x: string, after: string): string {
    if x == [] then ['"'] + after else EscapeChar(x[0]) + StringText(x[1..], after)
  }

  /** The members of a non-empty profile, `"name":"value"` separated by commas, followed by
      `close`. */
  function MembersText(p: Profile, close: string): string
    requires p != []
  {
    ['"'] + StringText(p[0].0, [':', '"'] + StringText(p[0].1,
      if |p| > 1 then [','] + MembersText(p[1..], close) else close))
  }

  /** `JSON.stringify(user)` */
  function Stringify(p: Profile): string {
    if p == [] then "{}" else ['{'] + MembersText(p, ['}'])
  }

  /** Decodes the escape sequence after a backslash: the character and how many characters it used. */
  function Unescape(s: string): (r: Option<(char, nat)>)
    ensures r.Some? ==> 1 <= r.value.1 <= |s|
  {
    if s == [] then None
    else if s[0] in ShortUnescapes then Some((ShortUnescapes[s[0]], 1))
    else if s[0] == 'u' && |s| >= 5 && IsHexDigit(s[1]) && IsHexDigit(s[2]) && IsHexDigit(s[3]) && IsHexDigit(s[4]) then
      var code := HexValue(s[1]) * 4096 + HexValue(s[2]) * 256 + HexValue(s[3]) * 16 + HexValue(s[4]);
      if 0xD800 <= code <= 0xDFFF then None else Some((code as char, 5))
    else None
  }

  /** Prepends a decoded character to the outcome of reading the rest of a string literal. */
  function Cons(c: char, r: Option<(string, string)>): Option<(string, string)> {
    match r
    case None => None
    case Some((t, rest)) => Some(([c] + t, rest))
  }

  /** Reads the body of a string literal (after its opening quote): the decoded text and what
      follows the closing quote. */
  function ParseChars(s: string): (r: Option<(string, string)>)
    ensures r.Some? ==> |r.value.1| < |s|
    decreases |s|
  {
    if s == [] then None
    else if s[0] == '"' then Some(([], s[1..]))
    else if s[0] == '\\' then
      match Unescape(s[1..])
      case None => None
      case Some((c, n)) => Cons(c, ParseChars(s[1 + n..]))
    else if (s[0] as int) < 0x20 then None
    else Cons(s[0], ParseChars(s[1..]))
  }

  /** Reads `"name":"value"` members up to and including the closing brace. */
  function ParseMembers(s: string): (r: Option<(Profile, string)>)
    decreases |s|, 1
  {
    if s == [] || s[0] != '"' then None
    else
      match ParseChars(s[1..])
      case None => None
      case Some((k, r1)) =>
        if |r1| < 2 || r1[0] != ':' || r1[1] != '"' then None
        else
          match ParseChars(r1[2..])
          case None => None
          case Some((v, r2)) => AfterMember(k, v, r2)
  }

  /** After one member: the closing brace ends the object, a comma introduces the next member. */
  function AfterMember(k: string, v: string, r2: string): (r: Option<(Profile, string)>)
    decreases |r2|, 0
  {
    if r2 == [] then None
    else if r2[0] == '}' then Some(([(k, v)], r2[1..]))
    else if r2[0] == ',' then
      match ParseMembers(r2[1..])
      case None => None
      case Some((ms, r3)) => Some(([(k, v)] + ms, r3))
    else None
  }

  /** `JSON.parse(text)` on the modelled subset: flat objects of string values with no white
      space between tokens. `None` covers every text outside that subset: the texts on which
      `JSON.parse` throws a `SyntaxError`, and also valid JSON it would accept (white space, a
      number, a nested object), which the model nonetheless treats as a failed parse. */
  function Parse(s: string): Option<Profile> {
    if s == "{}" then Some([])
    else if s != [] && s[0] == '{' then
      match ParseMembers(s[1..])
      case Some((p, rest)) => if rest == [] then Some(p) else None
      case None => None
    else None
  }

  /** The value of a property: the last member with that name wins, as in `JSON.parse`. */
  function Get(p: Profile, name: string): (r: Option<string>)
    ensures r.Some? <==> exists i :: 0 <= i < |p| && p[i].0 == name
    ensures r.Some? ==> exists i :: 0 <= i < |p| && p[i] == (name, r.value)
  {
    if p == [] then None
    else
      match Get(p[1..], name)
      case Some(v) => Some(v)
      case None => if p[0].0 == name then Some(p[0].1) else None
  }

  lemma PlainStep(c: char, tail: string)
    requires c != '"' && c != '\\' && (c as int) >= 0x20
    ensures ParseChars([c] + tail) == Cons(c, ParseChars(tail))
  {
    assert ([c] + tail)[1..] == tail;
  }

  /** Each one-letter escape `JSON.stringify` writes is read back as its character. */
  lemma ShortEscapesInverse(c: char)
    requires c in ShortEscapes
    ensures ShortEscapes[c] in ShortUnescapes && ShortUnescapes[ShortEscapes[c]] == c
  {
  }

  lemma ShortEscapeStep(e: char, c: char, tail: string)
    requires Unescape([e]) == Some((c, 1))
    ensures ParseChars(['\\', e] + tail) == Cons(c, ParseChars(tail))
  {
    var s := ['\\', e] + tail;
    assert s[1..][..1] == [e];
    assert Unescape(s[1..]) == Some((c, 1));
    assert s[2..] == tail;
  }

  lemma UnicodeEscapeStep(c: char, tail: string)
    requires (c as int) < 0x20
    ensures ParseChars(['\\', 'u', '0', '0', HexDigitLower(c as int / 16), HexDigitLower(c as int % 16)] + tail)
      == Cons(c, ParseChars(tail))
  {
    var hi, lo := c as int / 16, c as int % 16;
    var s := ['\\', 'u', '0', '0', HexDigitLower(hi), HexDigitLower(lo)] + tail;
    assert HexValue(HexDigitLower(hi)) == hi;
    assert HexValue(HexDigitLower(lo)) == lo;
    var u := s[1..];
    assert u[0] == 'u' && u[1] == '0' && u[2] == '0' && u[3] == HexDigitLower(hi) && u[4] == HexDigitLower(lo);
    assert Unescape(u) == Some((c, 5));
    assert s[6..] == tail;
  }

  /** Parsing the escaped form of one character decodes that character and continues with the rest. */
  lemma EscapeCharStep(c: char, tail: string)
    ensures ParseChars(EscapeChar(c) + tail) == Cons(c, ParseChars(tail))
  {
    if c in ShortEscapes {
      ShortEscapesInverse(c);
      ShortEscapeStep(ShortEscapes[c], c, tail);
    } else if (c as int) < 0x20 {
      UnicodeEscapeStep(c, tail);
    } else {
      PlainStep(c, tail);
    }
  }

  lemma {:induction false} ParseStringText(x: string, after: string)
    ensures ParseChars(StringText(x, after)) == Some((x, after))
  {
    if x == [] {
      DropHead('"', after);
    } else {
      ParseStringText(x[1..], after);
      EscapeCharStep(x[0], StringText(x[1..], after));
      assert [x[0]] + x[1..] == x;
    }
  }

  /** A member is read from its name and value literals; what follows is left to `AfterMember`. */
  lemma MemberStep(k: string, v: string, r2: string)
    ensures ParseMembers(['"'] + StringText(k, [':', '"'] + StringText(v, r2))) == AfterMember(k, v, r2)
  {
    var r1 := [':', '"'] + StringText(v, r2);
    var s := ['"'] + StringText(k, r1);
    DropHead('"', StringText(k, r1));
    assert r1[2..] == StringText(v, r2);
    ParseStringText(k, r1);
    ParseStringText(v, r2);
  }

  lemma DropHead(c: char, x: string)
    ensures ([c] + x)[1..] == x
  {
  }

  lemma {:induction false} ParseMembersText(p: Profile, tail: string)
    requires p != []
    ensures ParseMembers(MembersText(p, ['}'] + tail)) == Some((p, tail))
  {
    var k, v := p[0].0, p[0].1;
    var close := ['}'] + tail;
    var r2 := if |p| > 1 then [','] + MembersText(p[1..], close) else close;
    MemberStep(k, v, r2);
    if |p| > 1 {
      DropHead(',', MembersText(p[1..], close));
      ParseMembersText(p[1..], tail);
      assert AfterMember(k, v, r2) == Some(([(k, v)] + p[1..], tail));
      assert [(k, v)] + p[1..] == p;
    } else {
      DropHead('}', tail);
      assert [(k, v)] == p;
    }
  }

  /** Reading back what `Stringify` wrote gives the same profile. */
  lemma ParseStringify(p: Profile)
    ensures Parse(Stringify(p)) == Some(p)
  {
    if p != [] {
      var s := Stringify(p);
      var close: string := ['}'];
      assert close + [] == close;
      ParseMembersText(p, []);
      assert s[1..] == MembersText(p, close);
      assert s[1] == '"';
    }
  }
}
