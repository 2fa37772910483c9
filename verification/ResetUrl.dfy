/**
 The self-service password reset link: percent-encoding (sections 2.1 and 2.3 of RFC 3986)
 of a login into the URL template, and what a reader gets back out of it. A login is the
 sequence of bytes of its UTF-8 encoding.
 */
module ResetUrl {
  import opened Common

  newtype byte = x: int | 0 <= x < 256

  type Bytes = seq<byte>

  /* ----- percent-encoding ----- */

  predicate Unreserved(b: byte) {
    || 0x41 <= b <= 0x5A || 0x61 <= b <= 0x7A || 0x30 <= b <= 0x39
    || b == 0x2D || b == 0x2E || b == 0x5F || b == 0x7E
  }

  function HexDigit(n: int): char
    requires 0 <= n < 16
  {
    if n < 10 then (0x30 + n) as char else (0x37 + n) as char
  }

  function HexValue(c: char): Option<int> {
    if '0' <= c <= '9' then Some(c as int - 0x30)
    else if 'A' <= c <= 'F' then Some(c as int - 0x37)
    else if 'a' <= c <= 'f' then Some(c as int - 0x57)
    else None
  }

  // quote(login, safe=""), one byte at a time.
  function QuoteByte(b: byte): string {
    if Unreserved(b) then [b as char] else ['%', HexDigit(b as int / 16), HexDigit(b as int % 16)]
  }

  function Quote(bs: Bytes): string {
    if bs == [] then "" else QuoteByte(bs[0]) + Quote(bs[1..])
  }

  predicate EscapeAt(s: string, i: nat) {
    i + 2 < |s| && s[i] == '%' && HexValue(s[i + 1]).Some? && HexValue(s[i + 2]).Some?
  }

  function CharByte(c: char): byte {
    if (c as int) < 256 then c as int as byte else 0x3F
  }

  // Reading a query value: escapes are undone, '+' stands for a space, the rest is itself.
  function Unquote(s: string): Bytes {
    if s == "" then []
    else if EscapeAt(s, 0)
    then [(16 * HexValue(s[1]).value + HexValue(s[2]).value) as byte] + Unquote(s[3..])
    else [if s[0] == '+' then 0x20 else CharByte(s[0])] + Unquote(s[1..])
  }

  // Letters, digits, and four marks.
  predicate UnreservedChar(c: char) {
    || 'A' <= c <= 'Z' || 'a' <= c <= 'z' || '0' <= c <= '9' || c == '-' || c == '.' || c == '_' || c == '~'
  }

  // Only unreserved characters and %XX triples.
  predicate CleanlyEncoded(s: string) {
    s == "" ||
    if s[0] == '%' then EscapeAt(s, 0) && CleanlyEncoded(s[3..])
    else UnreservedChar(s[0]) && CleanlyEncoded(s[1..])
  }

  lemma {:induction false} UnquoteQuote(bs: Bytes)
    ensures Unquote(Quote(bs)) == bs
  {
    if bs != [] {
      var rest := Quote(bs[1..]);
      var s := Quote(bs);
      UnquoteQuote(bs[1..]);
      if Unreserved(bs[0]) {
        assert s[1..] == rest && s[0] == bs[0] as char;
      } else {
        assert s[3..] == rest;
        assert HexValue(s[1]) == Some(bs[0] as int / 16) && HexValue(s[2]) == Some(bs[0] as int % 16);
      }
    }
  }

  // A byte is left as it is exactly if it is an unreserved character, and otherwise escaped.
  lemma QuoteByteMeans(b: byte)
    ensures UnreservedChar(b as char) ==> QuoteByte(b) == [b as char]
    ensures !UnreservedChar(b as char) ==> |QuoteByte(b)| == 3 && QuoteByte(b)[0] == '%'
  {}

  lemma {:induction false} QuoteIsClean(bs: Bytes)
    ensures CleanlyEncoded(Quote(bs))
  {
    if bs != [] {
      var rest := Quote(bs[1..]);
      var s := Quote(bs);
      QuoteIsClean(bs[1..]);
      if Unreserved(bs[0]) {
        assert s[1..] == rest && s[0] == bs[0] as char;
      } else {
        assert s[3..] == rest;
        assert HexValue(s[1]).Some? && HexValue(s[2]).Some?;
      }
    }
  }

  predicate Delimiter(c: char) { c == '&' || c == '#' || c == '?' || c == '+' || c == '=' }

  lemma {:induction false} CleanHasNoDelimiter(s: string, c: char)
    requires CleanlyEncoded(s) && Delimiter(c)
    ensures c !in s
  {
    if s != "" {
      if s[0] == '%' {
        CleanHasNoDelimiter(s[3..], c);
        assert s == s[..3] + s[3..];
        assert s[..3] == [s[0], s[1], s[2]];
      } else {
        CleanHasNoDelimiter(s[1..], c);
        assert s == [s[0]] + s[1..];
      }
    }
  }

  /* ----- taking a URL apart ----- */

  function Before(s: string, c: char): string {
    if s == "" || s[0] == c then "" else [s[0]] + Before(s[1..], c)
  }

  function After(s: string, c: char): string {
    if s == "" then "" else if s[0] == c then s[1..] else After(s[1..], c)
  }

  // Between the first '?' and the first '#'.
  function Query(url: string): string { After(Before(url, '#'), '?') }

  // The value of the first parameter with this name.
  function Param(query: string, name: string): Option<string>
    decreases |query|
  {
    var piece := Before(query, '&');
    if name + "=" <= piece then Some(piece[|name| + 1..])
    else if '&' in query then AfterIsShorter(query, '&'); Param(After(query, '&'), name)
    else None
  }

  lemma {:induction false} AfterIsShorter(s: string, c: char)
    requires c in s
    ensures |After(s, c)| < |s|
  {
    if s[0] != c {
      AfterIsShorter(s[1..], c);
    }
  }

  lemma {:induction false} Cut(x: string, c: char, y: string)
    requires c !in x
    ensures Before(x + [c] + y, c) == x && After(x + [c] + y, c) == y
  {
    var s := x + [c] + y;
    if x == "" {
      assert s[1..] == y;
    } else {
      assert s[1..] == x[1..] + [c] + y;
      Cut(x[1..], c, y);
    }
  }

  lemma {:induction false} Uncut(x: string, c: char)
    requires c !in x
    ensures Before(x, c) == x
  {
    if x != "" {
      Uncut(x[1..], c);
    }
  }

  /* ----- the template ----- */

  // A link template of the default's shape, around the base URL and the encoded login.
  datatype Template = Template(path: string, firstParam: string, postback: string)

  predicate Plain(s: string) { forall i :: 0 <= i < |s| ==> s[i] != '?' && s[i] != '#' && s[i] != '&' }

  predicate PlainTemplate(t: Template) {
    && Plain(t.path) && Plain(t.firstParam) && Plain(t.postback)
    && !("login=" <= t.firstParam) && !("postbackUrl=" <= t.firstParam)
  }

  const AUTH_METHODS := [
    "PASSWORD_AUTH", "PUSH_AUTH", "CERT_AUTH", "SMS_AUTH", "VOICE_AUTH", "CHALLENGE_RESPONSE_AUTH",
    "DUO_AUTH", "TOTP_AUTH", "CRIIPTO_AUTH", "KERB_AUTH", "WEB_AUTH", "EMAIL_AUTH"]

  function Join(parts: seq<string>): string {
    if parts == [] then "" else if |parts| == 1 then parts[0] else parts[0] + "," + Join(parts[1..])
  }

  const NESTED_PATH := "%2Fidp%2FresetPasswordForm" + "%3Flogin%3D"

  const DEFAULT_TEMPLATE := Template("/idp/auth-select", "reqAuthTypes=" + Join(AUTH_METHODS),
      "postbackUrl=" + NESTED_PATH)

  function RStripSlash(s: string): string {
    if s != "" && s[|s| - 1] == '/' then RStripSlash(s[..|s| - 1]) else s
  }

  // _build_password_reset_url.
  function BuildPasswordResetUrl(t: Template, baseUrl: string, login: Bytes): string {
    RStripSlash(baseUrl) + t.path + "?" + t.firstParam + "&login=" + Quote(login) + "&" + t.postback + Quote(login)
  }

  lemma {:induction false} JoinIsPlain(parts: seq<string>)
    requires forall i :: 0 <= i < |parts| ==> Plain(parts[i])
    ensures Plain(Join(parts))
  {
    if |parts| > 1 {
      JoinIsPlain(parts[1..]);
    }
  }

  // The default template has the shape the results below ask for.
  lemma DefaultTemplateIsPlain()
    ensures PlainTemplate(DEFAULT_TEMPLATE)
  {
    hide Join, Plain;
    AuthMethodsArePlain();
    JoinIsPlain(AUTH_METHODS);
    NestedPathIsPlain();
    FirstParamIsPlain(Join(AUTH_METHODS));
    PathIsPlain();
  }

  lemma PathIsPlain()
    ensures Plain("/idp/auth-select")
  {}

  lemma FirstParamIsPlain(methods: string)
    requires Plain(methods)
    ensures Plain("reqAuthTypes=" + methods)
    ensures !("login=" <= "reqAuthTypes=" + methods) && !("postbackUrl=" <= "reqAuthTypes=" + methods)
  {
    assert Plain("reqAuthTypes=");
    assert ("reqAuthTypes=" + methods)[0] == 'r';
    assert "login="[0] == 'l';
    assert "postbackUrl="[0] == 'p';
  }

  lemma AuthMethodsArePlain()
    ensures forall i :: 0 <= i < |AUTH_METHODS| ==> Plain(AUTH_METHODS[i])
  {
    ShortNamesArePlain();
    assert Plain("CHALLENGE_RESPONSE_AUTH");
    assert Plain("PASSWORD_AUTH");
    forall i | 0 <= i < |AUTH_METHODS| ensures Plain(AUTH_METHODS[i]) {
      hide Plain;
    }
  }

  lemma ShortNamesArePlain()
    ensures Plain("PUSH_AUTH") && Plain("CERT_AUTH") && Plain("SMS_AUTH") && Plain("VOICE_AUTH") && Plain("DUO_AUTH")
    ensures Plain("TOTP_AUTH") && Plain("CRIIPTO_AUTH") && Plain("KERB_AUTH") && Plain("WEB_AUTH")
            && Plain("EMAIL_AUTH")
  {}

  lemma NestedPathIsPlain()
    ensures Plain("postbackUrl=" + NESTED_PATH)
  {
    assert Plain("%2Fidp%2FresetPasswordForm") && Plain("%3Flogin%3D") && Plain("postbackUrl=");
  }

  lemma {:induction false} StripKeepsOut(s: string, c: char)
    requires c !in s
    ensures c !in RStripSlash(s)
  {
    if s != "" && s[|s| - 1] == '/' {
      assert forall d :: d in s[..|s| - 1] ==> d in s;
      StripKeepsOut(s[..|s| - 1], c);
    }
  }

  lemma EncodedIsPlain(login: Bytes)
    ensures Plain(Quote(login))
  {
    QuoteIsClean(login);
    CleanHasNoDelimiter(Quote(login), '?');
    CleanHasNoDelimiter(Quote(login), '#');
    CleanHasNoDelimiter(Quote(login), '&');
  }

  // The last two parameters.
  function Tail(t: Template, login: Bytes): string {
    ("login=" + Quote(login)) + "&" + (t.postback + Quote(login))
  }

  // Stripping takes the slashes at the end, all of them, and nothing else.
  lemma {:induction false} StripMeans(s: string) returns (n: nat)
    ensures n <= |s| && RStripSlash(s) == s[..n] && (forall i :: n <= i < |s| ==> s[i] == '/')
    ensures n > 0 ==> s[n - 1] != '/'
  {
    if s != "" && s[|s| - 1] == '/' {
      var init := s[..|s| - 1];
      n := StripMeans(init);
      assert forall i :: 0 <= i < |init| ==> s[i] == init[i];
      assert init[..n] == s[..n];
    } else {
      n := |s|;
      assert s[..n] == s;
    }
  }

  // Before the query, a reset link is the base URL without the slashes at its end, then the path.
  lemma AddressOfResetUrl(t: Template, baseUrl: string, login: Bytes) returns (n: nat)
    requires PlainTemplate(t) && '?' !in baseUrl
    ensures n <= |baseUrl| && (forall i :: n <= i < |baseUrl| ==> baseUrl[i] == '/')
            && (n > 0 ==> baseUrl[n - 1] != '/')
    ensures Before(BuildPasswordResetUrl(t, baseUrl, login), '?') == baseUrl[..n] + t.path
  {
    var front, query := RStripSlash(baseUrl) + t.path, t.firstParam + "&" + Tail(t, login);
    n := StripMeans(baseUrl);
    StripKeepsOut(baseUrl, '?');
    assert BuildPasswordResetUrl(t, baseUrl, login) == front + ['?'] + query;
    Cut(front, '?', query);
  }

  // The query of a reset link is what the template puts there, for any base URL that carries
  // no query or fragment of its own.
  lemma QueryOfResetUrl(t: Template, baseUrl: string, login: Bytes)
    requires PlainTemplate(t) && '?' !in baseUrl && '#' !in baseUrl
    ensures Query(BuildPasswordResetUrl(t, baseUrl, login)) == t.firstParam + "&" + Tail(t, login)
  {
    var url := BuildPasswordResetUrl(t, baseUrl, login);
    var front, query := RStripSlash(baseUrl) + t.path, t.firstParam + "&" + Tail(t, login);
    EncodedIsPlain(login);
    StripKeepsOut(baseUrl, '#');
    StripKeepsOut(baseUrl, '?');
    assert url == front + ['?'] + query;
    assert '#' !in front && '#' !in query;
    Uncut(url, '#');
    Cut(front, '?', query);
  }

  lemma NextParam(piece: string, rest: string, name: string)
    requires '&' !in piece && !(name + "=" <= piece)
    ensures Param(piece + "&" + rest, name) == Param(rest, name)
  {
    assert piece + "&" + rest == piece + ['&'] + rest;
    Cut(piece, '&', rest);
    assert (piece + "&" + rest)[|piece|] == '&';
  }

  lemma FoundParam(name: string, value: string, rest: string)
    requires '&' !in name && '&' !in value
    ensures Param(name + "=" + value + "&" + rest, name) == Some(value)
    ensures Param(name + "=" + value, name) == Some(value)
  {
    var piece := name + "=" + value;
    assert piece + "&" + rest == piece + ['&'] + rest;
    Cut(piece, '&', rest);
    Uncut(piece, '&');
    assert name + "=" <= piece && piece[|name| + 1..] == value;
  }

  // The round trip: whatever bytes a login consists of, the login parameter of the link built
  // for it decodes to that login.
  lemma LoginReadsBack(t: Template, baseUrl: string, login: Bytes)
    requires PlainTemplate(t) && '?' !in baseUrl && '#' !in baseUrl
    ensures var p := Param(Query(BuildPasswordResetUrl(t, baseUrl, login)), "login");
            p.Some? && Unquote(p.value) == login
  {
    QueryOfResetUrl(t, baseUrl, login);
    EncodedIsPlain(login);
    assert "login" + "=" == "login=";
    NextParam(t.firstParam, Tail(t, login), "login");
    assert Tail(t, login) == "login" + "=" + Quote(login) + "&" + (t.postback + Quote(login));
    FoundParam("login", Quote(login), t.postback + Quote(login));
    UnquoteQuote(login);
  }
}
