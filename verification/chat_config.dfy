/** The chat service's settings normalisers: the `mode='before'` field
    validators that give an unset value its default and parse numeric
    strings, and the parsing of the comma-separated CORS origin list.
    Loading the settings from the environment is not modelled; a raw
    setting value is a `Json`. */
module ChatConfig {
  import opened Options
  import opened Text
  import opened Json

  // ---------------------------------------------------------------------
  // Python's int(str), base 10

  predicate IsUnderscore(c: char) { c == '_' }

  predicate IsDigitOrUnderscore(c: char) { IsAsciiDigit(c) || c == '_' }

  /** The characters that may remain in a numeral once it is stripped. */
  predicate IsNumeralChar(c: char) { IsDigitOrUnderscore(c) || c == '+' || c == '-' }

  /** The digits of a numeral: digits, where a single underscore may
      separate two of them. */
  predicate ValidDigits(b: string) {
    |b| > 0 && IsAsciiDigit(b[0]) && IsAsciiDigit(b[|b| - 1])
    && AllChars(b, IsDigitOrUnderscore)
    && forall i :: 0 <= i < |b| - 1 ==> (b[i] == '_' ==> IsAsciiDigit(b[i + 1]))
  }

  /** The value of valid digits, underscores ignored. */
  function DigitsOf(b: string): nat
    requires ValidDigits(b)
  {
    var d := Without(b, IsUnderscore);
    WithoutAllChars(b, IsUnderscore, IsDigitOrUnderscore);
    assert forall i :: 0 <= i < |d| ==> IsDigitOrUnderscore(d[i]) && !IsUnderscore(d[i]);
    DigitsValue(d)
  }

  /** A stripped numeral: one sign may lead, and the rest must be valid
      digits. */
  function ParseNumeral(t: string): (r: Option<int>)
    ensures r.Some? ==> t != [] && AllChars(t, IsNumeralChar)
    ensures r.Some? && r.value < 0 ==> t[0] == '-'
  {
    if t == [] then None
    else
      var body := if t[0] == '-' || t[0] == '+' then t[1..] else t;
      if !ValidDigits(body) then None
      else
        assert forall i :: 1 <= i < |t| ==> t[i] == t[1..][i - 1];
        var v: int := DigitsOf(body);
        Some(if t[0] == '-' then -v else v)
  }

  /** `int(s)` for a string: surrounding whitespace is ignored and the
      rest must be a numeral; anything else raises `ValueError`, here
      `None`. */
  function ParseInt(s: string): (r: Option<int>)
    ensures r.Some? ==> Strip(s) != [] && AllChars(Strip(s), IsNumeralChar)
    ensures r.Some? && r.value < 0 ==> Strip(s)[0] == '-'
  {
    ParseNumeral(Strip(s))
  }

  lemma DigitNotSpace(c: char)
    requires IsAsciiDigit(c)
    ensures !IsSpace(c)
  {
  }

  /** Text that starts and ends with a digit is its own strip. */
  lemma DigitEndsStripped(s: string)
    requires |s| > 0 && IsAsciiDigit(s[0]) && IsAsciiDigit(s[|s| - 1])
    ensures Strip(s) == s
  {
    DigitNotSpace(s[0]);
    DigitNotSpace(s[|s| - 1]);
    StripTrimmed(s);
  }

  /** Digits without underscores read as their decimal value. */
  lemma PlainDigits(b: string)
    requires |b| > 0 && AllChars(b, IsAsciiDigit)
    ensures ValidDigits(b) && DigitsOf(b) == DigitsValue(b)
  {
    WithoutNone(b, IsUnderscore);
  }

  /** A numeral printed by `str` parses back. */
  lemma NumeralRoundTrip(n: int)
    ensures ParseNumeral(IntToString(n)) == Some(n)
  {
    if n < 0 {
      NegativeRoundTrip(-n);
    } else {
      UnsignedRoundTrip(n);
    }
  }

  lemma UnsignedRoundTrip(m: nat)
    ensures ParseNumeral(NatToString(m)) == Some(m)
  {
    var digits := NatToString(m);
    NatToStringRoundTrip(m);
    PlainDigits(digits);
    UnsignedNumeral(digits);
  }

  lemma NegativeRoundTrip(m: nat)
    requires m > 0
    ensures ParseNumeral("-" + NatToString(m)) == Some(-(m as int))
  {
    var digits := NatToString(m);
    var t := "-" + digits;
    NatToStringRoundTrip(m);
    PlainDigits(digits);
    assert t[0] == '-' && t[1..] == digits;
  }

  /** `str(n)` has no surrounding whitespace. */
  lemma IntToStringTrimmed(n: int)
    ensures Strip(IntToString(n)) == IntToString(n)
  {
    var t := IntToString(n);
    if n < 0 {
      var digits := NatToString(-n);
      assert t[1..] == digits;
      DigitNotSpace(t[|t| - 1]);
      MinusNotSpace();
      StripTrimmed(t);
    } else {
      DigitEndsStripped(t);
    }
  }

  lemma MinusNotSpace()
    ensures !IsSpace('-')
  {
  }

  /** `int(str(n)) == n`. */
  lemma ParseIntRoundTrip(n: int)
    ensures ParseInt(IntToString(n)) == Some(n)
  {
    IntToStringTrimmed(n);
    NumeralRoundTrip(n);
  }

  /** An underscore between two digit runs changes nothing. */
  lemma UnderscoreIgnored(a: string, b: string)
    requires |a| > 0 && |b| > 0 && AllChars(a, IsAsciiDigit) && AllChars(b, IsAsciiDigit)
    ensures ParseInt(a + ['_'] + b) == ParseInt(a + b) == Some(DigitsValue(a + b))
  {
    var u := a + ['_'] + b;
    var v := a + b;
    AllCharsAppend(a, b, IsAsciiDigit);
    PlainDigits(v);
    UnderscoreDigits(a, b);
    assert v[0] == a[0] && v[|v| - 1] == b[|b| - 1];
    assert u[0] == a[0] && u[|u| - 1] == b[|b| - 1];
    DigitEndsStripped(u);
    DigitEndsStripped(v);
    UnsignedNumeral(u);
    UnsignedNumeral(v);
  }

  /** Valid digits with no sign are a non-negative numeral. */
  lemma UnsignedNumeral(t: string)
    requires ValidDigits(t)
    ensures ParseNumeral(t) == Some(DigitsOf(t))
  {
  }

  lemma UnderscoreDigits(a: string, b: string)
    requires |a| > 0 && |b| > 0 && AllChars(a, IsAsciiDigit) && AllChars(b, IsAsciiDigit)
    ensures ValidDigits(a + ['_'] + b) && DigitsOf(a + ['_'] + b) == DigitsValue(a + b)
  {
    var u := a + ['_'] + b;
    UnderscoreValid(a, b);
    DropUnderscore(a, b);
  }

  lemma DropUnderscore(a: string, b: string)
    requires AllChars(a, IsAsciiDigit) && AllChars(b, IsAsciiDigit)
    ensures Without(a + ['_'] + b, IsUnderscore) == a + b
  {
    WithoutAppend(a + ['_'], b, IsUnderscore);
    WithoutAppend(a, ['_'], IsUnderscore);
    WithoutNone(a, IsUnderscore);
    WithoutNone(b, IsUnderscore);
    assert Without(['_'], IsUnderscore) == [] by {
      assert ['_'][1..] == [];
    }
  }

  lemma UnderscoreValid(a: string, b: string)
    requires |a| > 0 && |b| > 0 && AllChars(a, IsAsciiDigit) && AllChars(b, IsAsciiDigit)
    ensures ValidDigits(a + ['_'] + b)
  {
    var u := a + ['_'] + b;
    assert u[0] == a[0] && u[|u| - 1] == b[|b| - 1];
    forall i | 0 <= i < |u| ensures IsDigitOrUnderscore(u[i]) {
      if i < |a| {
        assert u[i] == a[i];
      } else if i > |a| {
        assert u[i] == b[i - |a| - 1];
      }
    }
    forall i | 0 <= i < |u| - 1 && u[i] == '_' ensures IsAsciiDigit(u[i + 1]) {
      if i == |a| {
        assert u[i + 1] == b[0];
      }
    }
  }

  // ---------------------------------------------------------------------
  // The field validators

  /** `v == '' or v is None`. */
  predicate Unset(v: Json) { v == JNull || v == JStr("") }

  /** An integer setting's validator: unset gives `default`, a string is
      parsed (a failed parse is a validation error, `None`), and any other
      value passes through to the field's own type check. */
  function ValidateInt(v: Json, default: int): (r: Option<Json>)
    ensures Unset(v) ==> r == Some(JInt(default))
    ensures v.JStr? && v.s != [] ==> (r.Some? <==> ParseInt(v.s).Some?)
    ensures !v.JStr? && !v.JNull? ==> r == Some(v)
    ensures r.Some? ==> !Unset(r.value) && !r.value.JStr?
  {
    if Unset(v) then Some(JInt(default))
    else if v.JStr? then
      match ParseInt(v.s)
      case None => None
      case Some(n) => Some(JInt(n))
    else Some(v)
  }

  /** A numeral setting reads as its number, whatever the default. */
  lemma ValidateIntNumeral(n: int, default: int)
    ensures ValidateInt(JStr(IntToString(n)), default) == Some(JInt(n))
  {
    ParseIntRoundTrip(n);
  }

  /** Validating a validated value changes nothing. */
  lemma ValidateIntIdempotent(v: Json, default: int)
    requires ValidateInt(v, default).Some?
    ensures ValidateInt(ValidateInt(v, default).value, default) == ValidateInt(v, default)
  {
  }

  /** `validate_max_conversation_history`. */
  function ValidateMaxConversationHistory(v: Json): (r: Option<Json>)
    ensures Unset(v) ==> r == Some(JInt(50))
    ensures !Unset(v) ==> r == ValidateInt(v, 0)
  {
    ValidateInt(v, 50)
  }

  /** `validate_session_timeout`. */
  function ValidateSessionTimeout(v: Json): (r: Option<Json>)
    ensures Unset(v) ==> r == Some(JInt(3600))
    ensures !Unset(v) ==> r == ValidateInt(v, 0)
  {
    ValidateInt(v, 3600)
  }

  /** `validate_max_search_results`. */
  function ValidateMaxSearchResults(v: Json): (r: Option<Json>)
    ensures Unset(v) ==> r == Some(JInt(5))
    ensures !Unset(v) ==> r == ValidateInt(v, 0)
  {
    ValidateInt(v, 5)
  }

  /** `validate_cors_origins`: unset means every origin. */
  function ValidateCorsOrigins(v: Json): (r: Json)
    ensures Unset(v) ==> r == JStr("*")
    ensures !Unset(v) ==> r == v
    ensures !Unset(r)
  {
    if Unset(v) then JStr("*") else v
  }

  // ---------------------------------------------------------------------
  // get_cors_origins_list

  /** `get_cors_origins_list`: "*" alone allows every origin; otherwise
      the comma-separated origins, stripped, empty ones dropped. */
  function CorsOriginsList(cors: string): (r: seq<string>)
    ensures cors == "*" ==> r == ["*"]
    ensures Every(r, IsPhrase)
    ensures forall k :: 0 <= k < |r| ==> Lacks(r[k], ',')
  {
    if cors == "*" then
      PunctuationNotSpace();
      ["*"]
    else
      var pieces := SplitSep(cors, ",");
      SplitSepPieces(cors, ",");
      PiecesLackComma(pieces);
      StrippedNonEmpty(pieces)
  }

  /** No piece of a comma split holds a comma, stripped or not. */
  lemma PiecesLackComma(pieces: seq<string>)
    requires forall k :: 0 <= k < |pieces| ==> !Contains(pieces[k], ",")
    ensures forall k :: 0 <= k < |StrippedNonEmpty(pieces)| ==> Lacks(StrippedNonEmpty(pieces)[k], ',')
  {
    forall k | 0 <= k < |pieces| ensures AllChars(pieces[k], NotComma) {
      NoCommaLacks(pieces[k]);
    }
    StrippedPiecesAllChars(pieces, NotComma);
    var r := StrippedNonEmpty(pieces);
    forall k | 0 <= k < |r| ensures Lacks(r[k], ',') {
      assert AllChars(r[k], NotComma);
    }
  }

  predicate NotComma(c: char) { c != ',' }

  lemma NoCommaLacks(p: string)
    requires !Contains(p, ",")
    ensures AllChars(p, NotComma)
  {
    forall i | 0 <= i < |p| ensures NotComma(p[i]) {
      assert p[i..i + 1] == [p[i]];
      assert !OccursAt(p, ",", i);
    }
  }

  /** Origins without commas, surrounding whitespace or empty entries come
      back from their comma-joined list unchanged and in order. */
  lemma CorsOriginsRoundTrip(origins: seq<string>)
    requires origins != [] && origins != ["*"]
    requires forall k :: 0 <= k < |origins| ==> origins[k] != [] && Trimmed(origins[k]) && Lacks(origins[k], ',')
    ensures CorsOriginsList(Join(origins, ",")) == origins
  {
    var s := Join(origins, ",");
    assert "," == [','];
    SplitSepJoin(origins, ',');
    StrippedNonEmptyKeeps(origins);
    if s == "*" {
      JoinSingle(origins);
    }
  }

  /** A join that is "*" came from the list ["*"] when no part is empty. */
  lemma JoinSingle(origins: seq<string>)
    requires origins != [] && forall k :: 0 <= k < |origins| ==> origins[k] != [] && Lacks(origins[k], ',')
    requires Join(origins, ",") == "*"
    ensures origins == ["*"]
  {
  }

  /** "*" is not the only way to allow every origin: whitespace around
      it is stripped away after the split. */
  lemma PaddedStarAllowsAll(c: char)
    requires IsSpace(c)
    ensures CorsOriginsList([c, '*']) == ["*"]
  {
    var s := [c, '*'];
    PunctuationNotSpace();
    assert "," == [','];
    FindFromNone(s, ',', 0);
    assert SplitSep(s, ",") == [s];
    assert LStripFrom(s, 0) == 1;
    assert RStripTo(s, 1, 2) == 2;
    assert Strip(s) == s[1..2] == "*";
    assert StrippedNonEmpty([s]) == ["*"];
    assert s != "*";
  }

  lemma PunctuationNotSpace()
    ensures !IsSpace(',') && !IsSpace('*')
    ensures Lacks("*", ',') && IsPhrase("*")
  {
    assert |"*"| == 1 && "*"[0] == '*';
  }
}
