/**
 The second copy of the login in a reset link sits inside the postback URL, which is itself
 a query value. It is encoded once, so after the outer decoding it stands bare in the inner
 query. This module says for exactly which logins the inner copy still reads back.
 */
module ResetUrlPostback {
  import opened Common
  import opened ResetUrl

  function Ascii(s: string): Bytes { seq(|s|, i requires 0 <= i < |s| => CharByte(s[i])) }

  function Chars(bs: Bytes): string { seq(|bs|, i requires 0 <= i < |bs| => bs[i] as char) }

  // The page the link sends the user back to, up to the login.
  const FORM := "/idp/resetPasswordForm"
  const FORM_QUERY := FORM + "?" + "login="

  // What the inner page reads as its login parameter.
  function InnerLogin(t: Template, baseUrl: string, login: Bytes): Option<Bytes> {
    var p := Param(Query(BuildPasswordResetUrl(t, baseUrl, login)), "postbackUrl");
    if p.None? then None else
    var q := Param(Query(Chars(Unquote(p.value))), "login");
    if q.None? then None else Some(Unquote(q.value))
  }

  // Bytes the inner query would take for its own syntax.
  predicate Undisturbed(login: Bytes) {
    && 0x26 !in login && 0x23 !in login && 0x2B !in login
    && EscapeFree(Chars(login))
  }

  // No '%' is followed by two hexadecimal digits.
  predicate EscapeFree(s: string) { forall i :: 0 <= i < |s| ==> !EscapeAt(s, i) }

  /* ----- concatenation ----- */

  lemma {:induction false} QuoteAppend(a: Bytes, b: Bytes)
    ensures Quote(a + b) == Quote(a) + Quote(b)
  {
    if a == [] {
      assert a + b == b;
    } else {
      assert (a + b)[1..] == a[1..] + b;
      QuoteAppend(a[1..], b);
    }
  }

  lemma {:induction false} BeforeAppend(x: string, y: string, c: char)
    requires c !in x
    ensures Before(x + y, c) == x + Before(y, c)
  {
    if x == "" {
      assert x + y == y;
    } else {
      assert (x + y)[1..] == x[1..] + y;
      BeforeAppend(x[1..], y, c);
    }
  }

  lemma {:induction false} BeforeIsShorter(s: string, c: char)
    ensures |Before(s, c)| <= |s|
    ensures c in s <==> |Before(s, c)| < |s|
    ensures c !in s ==> Before(s, c) == s
  {
    if s != "" && s[0] != c {
      BeforeIsShorter(s[1..], c);
      assert s == [s[0]] + s[1..];
    }
  }

  /* ----- the postback of the default template ----- */

  lemma {:induction false} QuoteKeepsUnreserved(s: string)
    requires forall i :: 0 <= i < |s| ==> (s[i] as int) < 256 && Unreserved(CharByte(s[i]))
    ensures Quote(Ascii(s)) == s
  {
    if s != "" {
      assert Ascii(s)[1..] == Ascii(s[1..]);
      QuoteKeepsUnreserved(s[1..]);
    }
  }

  lemma AsciiAppend(a: string, b: string)
    ensures Ascii(a + b) == Ascii(a) + Ascii(b)
  {}

  lemma QuoteText(a: string, b: string)
    ensures Quote(Ascii(a + b)) == Quote(Ascii(a)) + Quote(Ascii(b))
  {
    AsciiAppend(a, b);
    QuoteAppend(Ascii(a), Ascii(b));
  }

  lemma QuotePunctuation()
    ensures Quote(Ascii("/")) == "%2F" && Quote(Ascii("?")) == "%3F" && Quote(Ascii("=")) == "%3D"
  {
    assert Ascii("/") == [0x2F] && Ascii("?") == [0x3F] && Ascii("=") == [0x3D];
    assert HexDigit(2) == '2' && HexDigit(3) == '3' && HexDigit(15) == 'F' && HexDigit(13) == 'D';
  }

  lemma QuoteWords()
    ensures Quote(Ascii("idp")) == "idp" && Quote(Ascii("resetPasswordForm")) == "resetPasswordForm"
            && Quote(Ascii("login")) == "login"
  {
    QuoteKeepsUnreserved("idp");
    QuoteKeepsUnreserved("resetPasswordForm");
    QuoteKeepsUnreserved("login");
  }

  lemma FormIsEncoded()
    ensures Quote(Ascii(FORM)) == "%2Fidp%2FresetPasswordForm"
  {
    hide Quote, Ascii;
    QuotePunctuation();
    QuoteWords();
    QuoteText("/", "idp");
    QuoteText("/idp", "/");
    QuoteText("/idp/", "resetPasswordForm");
    assert "/" + "idp" == "/idp" && "/idp" + "/" == "/idp/" && "/idp/" + "resetPasswordForm" == FORM;
    assert "%2F" + "idp" + "%2F" + "resetPasswordForm" == "%2Fidp%2FresetPasswordForm";
  }

  lemma FormQueryTailIsEncoded()
    ensures Quote(Ascii("?")) + Quote(Ascii("login=")) == "%3Flogin%3D"
  {
    hide Quote, Ascii;
    QuotePunctuation();
    QuoteWords();
    QuoteText("login", "=");
    assert "login" + "=" == "login=" && "%3F" + "login" + "%3D" == "%3Flogin%3D";
  }

  // The constant in the template is the encoding of the form's address.
  lemma NestedPathIsEncoded()
    ensures NESTED_PATH == Quote(Ascii(FORM_QUERY))
  {
    hide Quote, Ascii;
    FormIsEncoded();
    FormQueryTailIsEncoded();
    QuoteText(FORM, "?");
    QuoteText(FORM + "?", "login=");
  }

  /* ----- reading the inner copy ----- */

  lemma CharsAppend(a: Bytes, b: Bytes)
    ensures Chars(a + b) == Chars(a) + Chars(b)
  {}

  // The postback parameter is the last one of the query.
  lemma PostbackParam(t: Template, baseUrl: string, login: Bytes)
    requires PlainTemplate(t) && t.postback == "postbackUrl=" + NESTED_PATH && '?' !in baseUrl && '#' !in baseUrl
    requires '&' !in NESTED_PATH
    ensures Param(Query(BuildPasswordResetUrl(t, baseUrl, login)), "postbackUrl") == Some(NESTED_PATH + Quote(login))
  {
    var encoded := Quote(login);
    var name := "postbackUrl";
    EncodedIsPlain(login);
    QueryOfResetUrl(t, baseUrl, login);
    LoginPieceDiffers(encoded);
    assert name + "=" == "postbackUrl=";
    assert t.postback + encoded == "postbackUrl=" + (NESTED_PATH + encoded);
    ThirdParam(t.firstParam, "login=" + encoded, name, NESTED_PATH + encoded);
  }

  lemma ThirdParam(first: string, second: string, name: string, value: string)
    requires '&' !in first && '&' !in second && '&' !in name && '&' !in value
    requires !(name + "=" <= first) && !(name + "=" <= second)
    ensures Param(first + "&" + (second + "&" + (name + "=" + value)), name) == Some(value)
  {
    NextParam(first, second + "&" + (name + "=" + value), name);
    NextParam(second, name + "=" + value, name);
    FoundParam(name, value, "");
  }

  lemma LoginPieceDiffers(encoded: string)
    requires Plain(encoded)
    ensures '&' !in "login=" + encoded && !("postbackUrl=" <= "login=" + encoded)
    ensures '&' !in "postbackUrl"
  {
    assert ("login=" + encoded)[0] == 'l' && "postbackUrl="[0] == 'p';
    assert Plain("login=") && Plain("postbackUrl");
  }

  // Decoded, it is the form's address with the bare login appended.
  lemma PostbackValue(t: Template, baseUrl: string, login: Bytes)
    requires PlainTemplate(t) && t.postback == "postbackUrl=" + NESTED_PATH && '?' !in baseUrl && '#' !in baseUrl
    ensures var p := Param(Query(BuildPasswordResetUrl(t, baseUrl, login)), "postbackUrl");
            p.Some? && Unquote(p.value) == Ascii(FORM_QUERY) + login
  {
    NestedPathIsEncoded();
    EncodedIsPlain(Ascii(FORM_QUERY));
    PostbackParam(t, baseUrl, login);
    QuoteAppend(Ascii(FORM_QUERY), login);
    UnquoteQuote(Ascii(FORM_QUERY) + login);
  }

  lemma FormQueryText()
    ensures Chars(Ascii(FORM_QUERY)) == FORM + "?" + "login="
    ensures '#' !in FORM_QUERY && '?' !in FORM && '&' !in "login="
  {
    FormIsAscii();
  }

  lemma FormIsAscii()
    ensures forall i :: 0 <= i < |FORM_QUERY| ==> (FORM_QUERY[i] as int) < 256 && FORM_QUERY[i] != '#'
    ensures forall i :: 0 <= i < |FORM| ==> FORM[i] != '?'
  {
    assert forall i :: 0 <= i < |FORM| ==> (FORM[i] as int) < 256 && FORM[i] != '#' && FORM[i] != '?';
    assert forall i :: 0 <= i < |"login="| ==> ("login="[i] as int) < 256 && "login="[i] != '#';
  }

  // The inner page sees the login cut at the first '#' and the first '&', and decoded again.
  lemma InnerLoginIs(t: Template, baseUrl: string, login: Bytes)
    requires PlainTemplate(t) && t.postback == "postbackUrl=" + NESTED_PATH && '?' !in baseUrl && '#' !in baseUrl
    ensures InnerLogin(t, baseUrl, login) == Some(Unquote(Before(Before(Chars(login), '#'), '&')))
  {
    hide Ascii;
    var bare := Chars(login);
    var cut := Before(bare, '#');
    var value := Before(cut, '&');
    PostbackValue(t, baseUrl, login);
    CharsAppend(Ascii(FORM_QUERY), login);
    FormQueryText();
    var target := FORM_QUERY + bare;
    BeforeAppend(FORM_QUERY, bare, '#');
    assert FORM_QUERY + cut == FORM + ['?'] + ("login=" + cut);
    Cut(FORM, '?', "login=" + cut);
    assert Query(target) == "login=" + cut;
    BeforeAppend("login=", cut, '&');
    assert "login" + "=" == "login=";
    assert "login=" <= "login=" + value && ("login=" + value)[6..] == value;
  }

  lemma {:induction false} UnquoteLength(s: string)
    ensures |Unquote(s)| <= |s|
  {
    if s != "" {
      UnquoteLength(if EscapeAt(s, 0) then s[3..] else s[1..]);
    }
  }

  lemma EscapeFreeStep(s: string)
    requires s != ""
    ensures EscapeFree(s) <==> !EscapeAt(s, 0) && EscapeFree(s[1..])
  {
    assert forall i :: 0 <= i < |s| - 1 ==> EscapeAt(s[1..], i) == EscapeAt(s, i + 1);
    if !EscapeAt(s, 0) && EscapeFree(s[1..]) {
      forall i | 0 <= i < |s| ensures !EscapeAt(s, i) {
        assert i > 0 ==> EscapeAt(s[1..], i - 1) == EscapeAt(s, i);
      }
    }
  }

  lemma CharsContain(login: Bytes, b: byte)
    ensures (b as char) in Chars(login) <==> b in login
  {
    if b in login {
      var i :| 0 <= i < |login| && login[i] == b;
      assert Chars(login)[i] == b as char;
    }
  }

  // A second decoding changes nothing exactly when there is nothing left to decode.
  lemma {:induction false} UnquoteFixed(login: Bytes)
    ensures Unquote(Chars(login)) == login <==> (0x2B !in login && EscapeFree(Chars(login)))
  {
    var s := Chars(login);
    if login != [] {
      var rest := login[1..];
      assert s[1..] == Chars(rest);
      UnquoteFixed(rest);
      EscapeFreeStep(s);
      assert login == [login[0]] + rest;
      if EscapeAt(s, 0) {
        UnquoteLength(s[3..]);
      } else {
        assert Unquote(s)[0] == (if s[0] == '+' then 0x20 else login[0]) && Unquote(s)[1..] == Unquote(s[1..]);
      }
    }
  }

  // The inner copy of the login reads back exactly for the logins without '&', '#', '+' or
  // anything that looks like an escape.
  lemma InnerLoginReadsBackIff(t: Template, baseUrl: string, login: Bytes)
    requires PlainTemplate(t) && t.postback == "postbackUrl=" + NESTED_PATH && '?' !in baseUrl && '#' !in baseUrl
    ensures InnerLogin(t, baseUrl, login) == Some(login) <==> Undisturbed(login)
  {
    var bare := Chars(login);
    InnerLoginIs(t, baseUrl, login);
    BeforeIsShorter(bare, '#');
    BeforeIsShorter(Before(bare, '#'), '&');
    UnquoteLength(Before(Before(bare, '#'), '&'));
    UnquoteFixed(login);
    CharsContain(login, 0x23);
    CharsContain(login, 0x26);
  }
}
