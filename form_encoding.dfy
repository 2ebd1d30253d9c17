/**
 * `encodeURIComponent` and the `application/x-www-form-urlencoded` bodies the
 * screens build by hand (`name=<encoded value>&name=<encoded value>...`), with
 * the way a receiver splits such a body at `&` and each part at its first `=`.
 */
module FormEncoding {
  import opened Common

  /** The characters `encodeURIComponent` leaves alone. */
  predicate IsUnreserved(c: char) {
    ('A' <= c <= 'Z') || ('a' <= c <= 'z') || ('0' <= c <= '9')
    || c == '-' || c == '_' || c == '.' || c == '!' || c == '~' || c == '*' || c == '\'' || c == '(' || c == ')'
  }

  predicate IsUpperHex(c: char) {
    ('0' <= c <= '9') || ('A' <= c <= 'F')
  }

  function HexDigitUpper(n: nat): (c: char)
    requires n < 16
    ensures IsUpperHex(c)
  {
    if n < 10 then ('0' as int + n) as char else ('A' as int + n - 10) as char
  }

  /** The UTF-8 encoding of one character. */
  function Utf8(c: char): (bs: seq<nat>)
    ensures 1 <= |bs| <= 4
    ensures forall i :: 0 <= i < |bs| ==> bs[i] < 256
    ensures (c as int < 0x80) <==> |bs| == 1
  {
    var cp := c as int;
    if cp < 0x80 then [cp]
    else if cp < 0x800 then [0xC0 + cp / 64, 0x80 + cp % 64]
    else if cp < 0x10000 then [0xE0 + cp / 4096, 0x80 + (cp / 64) % 64, 0x80 + cp % 64]
    else [0xF0 + cp / 262144, 0x80 + (cp / 4096) % 64, 0x80 + (cp / 64) % 64, 0x80 + cp % 64]
  }

  /** `%XX` for each byte, upper-case hexadecimal. */
  function PercentBytes(bs: seq<nat>): (r: string)
    requires forall i :: 0 <= i < |bs| ==> bs[i] < 256
    ensures |r| == 3 * |bs|
    ensures forall i :: 0 <= i < |r| ==> r[i] == '%' || IsUpperHex(r[i])
  {
    if bs == [] then []
    else ['%', HexDigitUpper(bs[0] / 16), HexDigitUpper(bs[0] % 16)] + PercentBytes(bs[1..])
  }

  function EncodeChar(c: char): string {
    if IsUnreserved(c) then [c] else PercentBytes(Utf8(c))
  }

  /** `encodeURIComponent(s)`: every character of the result is unreserved or part of a
      percent escape, and a string made only of unreserved characters is left as it is. */
  function EncodeUriComponent(s: string): (r: string)
    ensures forall i :: 0 <= i < |r| ==> IsUnreserved(r[i]) || r[i] == '%' || IsUpperHex(r[i])
    ensures (forall i :: 0 <= i < |s| ==> IsUnreserved(s[i])) ==> r == s
    ensures |s| <= |r| <= 12 * |s|
  {
    if s == [] then [] else EncodeChar(s[0]) + EncodeUriComponent(s[1..])
  }

  /** An encoded value never contains the separators of a form body. */
  lemma EncodedHasNoSeparators(s: string)
    ensures '&' !in EncodeUriComponent(s) && '=' !in EncodeUriComponent(s)
  {
    var r := EncodeUriComponent(s);
    forall i | 0 <= i < |r| ensures r[i] != '&' && r[i] != '=' {
    }
  }

  /** `name1=value1&name2=value2...`, the fields joined in the given order. */
  function FormBody(fields: seq<(string, string)>): string {
    if fields == [] then []
    else fields[0].0 + "=" + fields[0].1 + (if |fields| > 1 then "&" + FormBody(fields[1..]) else [])
  }

  /** `s.split(sep)` with JavaScript's semantics (an empty string gives one empty part). */
  function Split(s: string, sep: char): (parts: seq<string>)
    ensures |parts| >= 1
    decreases |s|
  {
    if s == [] then [[]]
    else
      var rest := Split(s[1..], sep);
      if s[0] == sep then [[]] + rest else [[s[0]] + rest[0]] + rest[1..]
  }

  /** One `name=value` part, cut at its first `=`. */
  function ParsePair(part: string): (r: Option<(string, string)>)
    ensures r.Some? ==> '=' !in r.value.0 && part == r.value.0 + "=" + r.value.1
    ensures r.None? <==> '=' !in part
  {
    if part == [] then None
    else if part[0] == '=' then Some(([], part[1..]))
    else
      match ParsePair(part[1..])
      case None => None
      case Some((k, v)) => Some(([part[0]] + k, v))
  }

  function ParseParts(parts: seq<string>): Option<seq<(string, string)>> {
    if parts == [] then Some([])
    else
      match (ParsePair(parts[0]), ParseParts(parts[1..]))
      case (Some(kv), Some(rest)) => Some([kv] + rest)
      case _ => None
  }

  /** How the receiver reads a form body. */
  function ParseForm(body: string): Option<seq<(string, string)>> {
    ParseParts(Split(body, '&'))
  }

  lemma {:induction false} SplitNoSep(a: string, sep: char)
    requires sep !in a
    ensures Split(a, sep) == [a]
  {
    if a != [] {
      SplitNoSep(a[1..], sep);
      assert [a[0]] + a[1..] == a;
    }
  }

  lemma {:induction false} SplitAtSep(a: string, sep: char, b: string)
    requires sep !in a
    ensures Split(a + [sep] + b, sep) == [a] + Split(b, sep)
  {
    var s := a + [sep] + b;
    if a == [] {
      assert s[1..] == b;
    } else {
      assert s[1..] == a[1..] + [sep] + b;
      SplitAtSep(a[1..], sep, b);
      assert [a[0]] + a[1..] == a;
    }
  }

  /** Keys free of `&` and `=` and values free of `&`. */
  predicate WellFormedFields(fields: seq<(string, string)>) {
    forall i :: 0 <= i < |fields| ==>
      '&' !in fields[i].0 && '=' !in fields[i].0 && '&' !in fields[i].1
  }

  lemma {:induction false} SplitFormBody(fields: seq<(string, string)>)
    requires fields != [] && WellFormedFields(fields)
    ensures Split(FormBody(fields), '&') == seq(|fields|, i requires 0 <= i < |fields| => fields[i].0 + "=" + fields[i].1)
  {
    var first := fields[0].0 + "=" + fields[0].1;
    assert '&' !in first by {
      assert forall j :: 0 <= j < |first| ==> first[j] in fields[0].0 || first[j] == '=' || first[j] in fields[0].1;
    }
    if |fields| > 1 {
      assert FormBody(fields) == first + "&" + FormBody(fields[1..]);
      SplitAtSep(first, '&', FormBody(fields[1..]));
      SplitFormBody(fields[1..]);
    } else {
      assert FormBody(fields) == first;
      SplitNoSep(first, '&');
      assert seq(|fields|, i requires 0 <= i < |fields| => fields[i].0 + "=" + fields[i].1) == [first];
    }
  }

  lemma {:induction false} ParsePairOf(k: string, v: string)
    requires '=' !in k
    ensures ParsePair(k + "=" + v) == Some((k, v))
  {
    if k == [] {
      assert (k + "=" + v)[1..] == v;
    } else {
      assert (k + "=" + v)[1..] == k[1..] + "=" + v;
      ParsePairOf(k[1..], v);
      assert [k[0]] + k[1..] == k;
    }
  }

  lemma {:induction false} ParsePartsOf(fields: seq<(string, string)>)
    requires forall i :: 0 <= i < |fields| ==> '=' !in fields[i].0
    ensures ParseParts(seq(|fields|, i requires 0 <= i < |fields| => fields[i].0 + "=" + fields[i].1)) == Some(fields)
  {
    var parts := seq(|fields|, i requires 0 <= i < |fields| => fields[i].0 + "=" + fields[i].1);
    if fields != [] {
      ParsePairOf(fields[0].0, fields[0].1);
      ParsePartsOf(fields[1..]);
      assert parts[1..] == seq(|fields[1..]|, i requires 0 <= i < |fields[1..]| => fields[1..][i].0 + "=" + fields[1..][i].1);
      assert [fields[0]] + fields[1..] == fields;
    }
  }

  /** A receiver splitting the body recovers exactly the fields, in order. */
  lemma ParseFormBody(fields: seq<(string, string)>)
    requires fields != [] && WellFormedFields(fields)
    ensures ParseForm(FormBody(fields)) == Some(fields)
  {
    SplitFormBody(fields);
    ParsePartsOf(fields);
  }

  /** Pairs each field name with the encoded value, as the screens' template strings do. */
  function EncodeFields(names: seq<string>, values: seq<string>): (fields: seq<(string, string)>)
    requires |names| == |values|
    ensures |fields| == |names|
    ensures forall i :: 0 <= i < |names| ==> fields[i] == (names[i], EncodeUriComponent(values[i]))
  {
    seq(|names|, i requires 0 <= i < |names| => (names[i], EncodeUriComponent(values[i])))
  }

  /** Field names without separators and encoded values make a well-formed body. */
  lemma EncodedFieldsWellFormed(names: seq<string>, values: seq<string>)
    requires |names| == |values|
    requires forall i :: 0 <= i < |names| ==> '&' !in names[i] && '=' !in names[i]
    ensures WellFormedFields(EncodeFields(names, values))
  {
    forall i | 0 <= i < |names| {
      EncodedHasNoSeparators(values[i]);
    }
  }

  lemma FormBodyOfTwo(n1: string, e1: string, n2: string, e2: string)
    ensures FormBody([(n1, e1), (n2, e2)]) == n1 + "=" + e1 + "&" + n2 + "=" + e2
  {
    var fields := [(n1, e1), (n2, e2)];
    assert fields[1..] == [(n2, e2)];
  }

  /** A one-field body written out by hand, `n=<enc v>`, is read back as that one field. */
  lemma OneFieldBody(n: string, v: string)
    requires '&' !in n && '=' !in n
    ensures ParseForm(n + "=" + EncodeUriComponent(v)) == Some([(n, EncodeUriComponent(v))])
  {
    var e := EncodeUriComponent(v);
    var fields := [(n, e)];
    EncodedHasNoSeparators(v);
    assert FormBody(fields) == n + "=" + e;
    ParseFormBody(fields);
  }

  /** A two-field body written out by hand, `n1=<enc v1>&n2=<enc v2>`, is the form body of
      those two fields, and a receiver splitting it recovers both encoded values. */
  lemma TwoFieldBody(n1: string, v1: string, n2: string, v2: string)
    requires '&' !in n1 && '=' !in n1 && '&' !in n2 && '=' !in n2
    ensures n1 + "=" + EncodeUriComponent(v1) + "&" + n2 + "=" + EncodeUriComponent(v2)
      == FormBody(EncodeFields([n1, n2], [v1, v2]))
    ensures ParseForm(n1 + "=" + EncodeUriComponent(v1) + "&" + n2 + "=" + EncodeUriComponent(v2))
      == Some([(n1, EncodeUriComponent(v1)), (n2, EncodeUriComponent(v2))])
  {
    var e1, e2 := EncodeUriComponent(v1), EncodeUriComponent(v2);
    var fields := [(n1, e1), (n2, e2)];
    assert EncodeFields([n1, n2], [v1, v2]) == fields;
    EncodedHasNoSeparators(v1);
    EncodedHasNoSeparators(v2);
    FormBodyOfTwo(n1, e1, n2, e2);
    ParseFormBody(fields);
  }
}
