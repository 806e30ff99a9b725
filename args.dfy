// The argument rules of the legacy command handlers: the announce setting
// read by SetAnnounce and the optional row limit read by board (Top/Bot),
// including the pieces of strings.Fields and strconv.Atoi they rely on.
module Args {
  import opened Text

  datatype Option<T> = None | Some(value: T)

  /** Limit used by board when the text gives no usable one. */
  const DefaultLimit: int := 10

  /** Bounds of Go's 64-bit `int`, the range strconv.Atoi accepts. */
  const MinInt: int := -0x8000_0000_0000_0000
  const MaxInt: int := 0x7FFF_FFFF_FFFF_FFFF

  // ---------------------------------------------------------------------
  // Announce setting

  /** The setting SetAnnounce reads from its text: Some(true) turns
      announcements on, Some(false) turns them off, None is unrecognised.
      The test is a case-sensitive prefix test on the untrimmed text, and the
      "on"/"yes" words are tried before "off"/"no". */
  function AnnounceSetting(text: string): (r: Option<bool>)
    ensures r == Some(true) <==> HasPrefix(text, "on") || HasPrefix(text, "yes")
    ensures r == Some(false) <==>
      !HasPrefix(text, "on") && !HasPrefix(text, "yes") && (HasPrefix(text, "off") || HasPrefix(text, "no"))
  {
    if HasPrefix(text, "on") || HasPrefix(text, "yes") then Some(true)
    else if HasPrefix(text, "off") || HasPrefix(text, "no") then Some(false)
    else None
  }

  /** Every text that starts with one of the four setting words is read as
      that word's setting, whatever follows it. */
  lemma {:induction false} AnnounceWords(rest: string)
    ensures AnnounceSetting("on" + rest) == Some(true)
    ensures AnnounceSetting("yes" + rest) == Some(true)
    ensures AnnounceSetting("off" + rest) == Some(false)
    ensures AnnounceSetting("no" + rest) == Some(false)
  {
    HasPrefixConcat("on", rest);
    HasPrefixConcat("yes", rest);
    HasPrefixConcat("off", rest);
    HasPrefixConcat("no", rest);
    assert ("off" + rest)[..2] != "on" by { assert ("off" + rest)[1] == 'f'; }
    assert ("off" + rest)[0] == 'o';
    assert ("no" + rest)[0] == 'n';
  }

  /** A text is recognised exactly when it starts with one of the words. */
  lemma AnnounceRecognised(text: string)
    ensures AnnounceSetting(text).Some? <==>
      exists w :: w in ["on", "yes", "off", "no"] && HasPrefix(text, w)
  {
    if AnnounceSetting(text).Some? {
      if HasPrefix(text, "on") { assert "on" in ["on", "yes", "off", "no"]; }
      else if HasPrefix(text, "yes") { assert "yes" in ["on", "yes", "off", "no"]; }
      else if HasPrefix(text, "off") { assert "off" in ["on", "yes", "off", "no"]; }
      else { assert "no" in ["on", "yes", "off", "no"]; }
    }
  }

  /** The test is on the raw text: "onion" counts as on, while a leading
      space or upper case is not recognised. */
  lemma AnnounceSettingCases()
    ensures AnnounceSetting("onion") == Some(true)
    ensures AnnounceSetting("nope") == Some(false)
    ensures AnnounceSetting(" on") == None
    ensures AnnounceSetting("ON") == None
    ensures AnnounceSetting("") == None
  {
    AnnounceWords("ion");
    assert "onion" == "on" + "ion";
    AnnounceWords("pe");
    assert "nope" == "no" + "pe";
    assert " on"[0] == ' ';
    assert "ON"[0] == 'O';
  }

  // ---------------------------------------------------------------------
  // First whitespace-separated field (strings.Fields(text)[0])

  function TrimLeftSpace(s: string): (r: string)
    ensures |r| <= |s| && r == s[|s| - |r|..]
    ensures r == [] || !IsSpace(r[0])
    ensures forall i :: 0 <= i < |s| - |r| ==> IsSpace(s[i])
  {
    if s != [] && IsSpace(s[0]) then TrimLeftSpace(s[1..]) else s
  }

  function TakeWord(s: string): (r: string)
    ensures |r| <= |s| && r == s[..|r|]
    ensures forall i :: 0 <= i < |r| ==> !IsSpace(r[i])
    ensures |r| < |s| ==> IsSpace(s[|r|])
  {
    if s == [] || IsSpace(s[0]) then [] else [s[0]] + TakeWord(s[1..])
  }

  /** The first field strings.Fields would return, or None when the text
      is empty or all whitespace. */
  function FirstField(s: string): (r: Option<string>)
    ensures r == None <==> forall i :: 0 <= i < |s| ==> IsSpace(s[i])
    ensures r.Some? ==> r.value != [] && forall i :: 0 <= i < |r.value| ==> !IsSpace(r.value[i])
    ensures r.Some? ==> exists k :: LeadingWordAt(s, k, r.value)
  {
    var t := TrimLeftSpace(s);
    if t == [] then None
    else
      var w := TakeWord(t);
      var k := |s| - |t|;
      assert s[k..k + |w|] == w by { assert t == s[k..]; }
      assert LeadingWordAt(s, k, w);
      Some(w)
  }

  /** `w` stands in `s` at index `k`, after only whitespace and before
      whitespace or the end of `s`. */
  predicate LeadingWordAt(s: string, k: int, w: string)
  {
    && 0 <= k <= |s| - |w|
    && s[k..k + |w|] == w
    && (forall i :: 0 <= i < k ==> IsSpace(s[i]))
    && (k + |w| == |s| || IsSpace(s[k + |w|]))
  }

  // ---------------------------------------------------------------------
  // strconv.Atoi

  predicate IsDigit(c: char)
  {
    '0' <= c <= '9'
  }

  predicate AllDigits(s: string)
  {
    forall i :: 0 <= i < |s| ==> IsDigit(s[i])
  }

  /** The value of a string of decimal digits, most significant first. */
  function DigitsValue(s: string): (v: nat)
    requires AllDigits(s)
  {
    if s == [] then 0
    else DigitsValue(s[..|s| - 1]) * 10 + (s[|s| - 1] as int - '0' as int)
  }

  /** strconv.Atoi: an optional '+' or '-' sign, then one or more decimal
      digits, whose value must fit a 64-bit int; anything else is an error
      (None). */
  function Atoi(s: string): (r: Option<int>)
    ensures r.Some? ==> MinInt <= r.value <= MaxInt
    ensures r.Some? ==>
      (s != [] &&
       var digits := if s[0] == '+' || s[0] == '-' then s[1..] else s;
       digits != [] && AllDigits(digits))
  {
    if s == [] then None
    else
      var signed := s[0] == '+' || s[0] == '-';
      var digits := if signed then s[1..] else s;
      if digits == [] || !AllDigits(digits) then None
      else
        var magnitude: int := DigitsValue(digits);
        var v := if s[0] == '-' then -magnitude else magnitude;
        if MinInt <= v <= MaxInt then Some(v) else None
  }

  /** Decimal spelling of a natural number, without sign or leading zeros. */
  function Decimal(n: nat): (s: string)
    ensures s != [] && AllDigits(s)
  {
    if n < 10 then [('0' as int + n) as char]
    else Decimal(n / 10) + [('0' as int + n % 10) as char]
  }

  lemma {:induction false} DecimalValue(n: nat)
    ensures DigitsValue(Decimal(n)) == n
  {
    var s := Decimal(n);
    if n >= 10 {
      DecimalValue(n / 10);
      assert s[..|s| - 1] == Decimal(n / 10);
    }
  }

  /** Round trip: Atoi reads back the decimal spelling of every int in
      range, and its negation. */
  lemma {:induction false} AtoiDecimal(n: nat)
    requires n <= MaxInt
    ensures Atoi(Decimal(n)) == Some(n)
    ensures Atoi("-" + Decimal(n)) == Some(-(n as int))
    ensures Atoi("+" + Decimal(n)) == Some(n)
  {
    DecimalValue(n);
    var d := Decimal(n);
    assert IsDigit(d[0]);
    assert ("-" + d)[1..] == d;
    assert ("+" + d)[1..] == d;
  }

  /** Atoi accepts a sign and leading zeros, and rejects a bare sign and
      any text with a non-digit after the sign. */
  lemma AtoiCases()
    ensures Atoi("+5") == Some(5)
    ensures Atoi("007") == Some(7)
    ensures Atoi("+") == None
    ensures Atoi("5x") == None
    ensures Atoi("abc") == None
  {
    AtoiDecimal(5);
    assert "+" + Decimal(5) == "+5";
    assert "007"[..2][..1] == "0" && "007"[..2] == "00";
    assert !IsDigit("5x"[1]);
    assert !IsDigit("abc"[0]);
  }

  // ---------------------------------------------------------------------
  // Row limit of board

  /** The number of rows board asks for: the first field of the text when it
      reads as an int greater than 0, DefaultLimit otherwise. */
  function ParseLimit(text: string): (limit: int)
    ensures limit > 0
    ensures limit != DefaultLimit ==>
      FirstField(text).Some? && Atoi(FirstField(text).value) == Some(limit)
    ensures FirstField(text).Some? && Atoi(FirstField(text).value).Some? &&
            Atoi(FirstField(text).value).value > 0 ==>
      limit == Atoi(FirstField(text).value).value
  {
    match FirstField(text)
    case None => DefaultLimit
    case Some(field) =>
      match Atoi(field)
      case Some(v) => if v > 0 then v else DefaultLimit
      case None => DefaultLimit
  }

  /** Whatever whitespace surrounds it and whatever text follows it, a
      positive int spelled in decimal as the first field is the limit. */
  lemma {:induction false} ParseLimitDecimal(lead: string, n: nat, tail: string)
    requires 0 < n <= MaxInt
    requires forall i :: 0 <= i < |lead| ==> IsSpace(lead[i])
    requires tail == [] || IsSpace(tail[0])
    ensures ParseLimit(lead + Decimal(n) + tail) == n
  {
    FirstFieldDecimal(lead, Decimal(n), tail);
    AtoiDecimal(n);
  }

  /** A word without whitespace, after only whitespace and before
      whitespace or the end of the text, is the first field. */
  lemma {:induction false} FirstFieldOf(lead: string, w: string, tail: string)
    requires w != [] && forall i :: 0 <= i < |w| ==> !IsSpace(w[i])
    requires forall i :: 0 <= i < |lead| ==> IsSpace(lead[i])
    requires tail == [] || IsSpace(tail[0])
    ensures FirstField(lead + w + tail) == Some(w)
  {
    var rest := w + tail;
    assert lead + w + tail == lead + rest;
    assert !IsSpace(rest[0]) by { assert rest[0] == w[0]; }
    TrimToWord(lead, rest);
    TakeWordOf(w, tail);
    assert FirstField(lead + rest) == Some(TakeWord(rest));
  }

  /** The first field of digits surrounded by whitespace is the digits. */
  lemma {:induction false} FirstFieldDecimal(lead: string, d: string, tail: string)
    requires d != [] && AllDigits(d)
    requires forall i :: 0 <= i < |lead| ==> IsSpace(lead[i])
    requires tail == [] || IsSpace(tail[0])
    ensures FirstField(lead + d + tail) == Some(d)
  {
    assert forall i :: 0 <= i < |d| ==> !IsSpace(d[i]) by {
      forall i | 0 <= i < |d| ensures !IsSpace(d[i]) {
        assert IsDigit(d[i]);
      }
    }
    FirstFieldOf(lead, d, tail);
  }

  lemma {:induction false} TrimToWord(lead: string, rest: string)
    requires forall i :: 0 <= i < |lead| ==> IsSpace(lead[i])
    requires rest != [] && !IsSpace(rest[0])
    ensures TrimLeftSpace(lead + rest) == rest
  {
    if lead != [] {
      assert (lead + rest)[1..] == lead[1..] + rest;
      TrimToWord(lead[1..], rest);
    }
  }

  lemma {:induction false} TakeWordOf(w: string, tail: string)
    requires forall i :: 0 <= i < |w| ==> !IsSpace(w[i])
    requires tail == [] || IsSpace(tail[0])
    ensures TakeWord(w + tail) == w
  {
    if w != [] {
      assert (w + tail)[1..] == w[1..] + tail;
      TakeWordOf(w[1..], tail);
    }
  }

  /** A negative number as first field gives the default limit. */
  lemma {:induction false} ParseLimitNegative(n: nat, tail: string)
    requires tail == [] || IsSpace(tail[0])
    ensures ParseLimit("-" + Decimal(n) + tail) == DefaultLimit
  {
    var w := "-" + Decimal(n);
    NegativeIsWord(n);
    FirstFieldOf("", w, tail);
    assert "" + w + tail == "-" + Decimal(n) + tail;
    AtoiNegative(n);
  }

  lemma NegativeIsWord(n: nat)
    ensures forall i :: 0 <= i < |"-" + Decimal(n)| ==> !IsSpace(("-" + Decimal(n))[i])
  {
    var d := Decimal(n);
    var w := "-" + d;
    forall i | 0 <= i < |w| ensures !IsSpace(w[i]) {
      if i > 0 { assert w[i] == d[i - 1] && IsDigit(d[i - 1]); }
    }
  }

  /** Atoi never reads a negative spelling as a positive number. */
  lemma AtoiNegative(n: nat)
    ensures Atoi("-" + Decimal(n)).Some? ==> Atoi("-" + Decimal(n)).value <= 0
  {
    var d := Decimal(n);
    DecimalValue(n);
    assert ("-" + d)[1..] == d;
  }

  /** Zero as first field gives the default limit. */
  lemma {:induction false} ParseLimitZero(tail: string)
    requires tail == [] || IsSpace(tail[0])
    ensures ParseLimit(Decimal(0) + tail) == DefaultLimit
  {
    var d := Decimal(0);
    var text := d + tail;
    assert "" + d + tail == text;
    FirstFieldDecimal("", d, tail);
    AtoiDecimal(0);
    assert FirstField(text) == Some(d) && Atoi(d) == Some(0);
  }

  /** A number beyond the int range as first field gives the default limit. */
  lemma {:induction false} ParseLimitOutOfRange(n: nat, tail: string)
    requires n > MaxInt
    requires tail == [] || IsSpace(tail[0])
    ensures ParseLimit(Decimal(n) + tail) == DefaultLimit
  {
    var d := Decimal(n);
    FirstFieldDecimal("", d, tail);
    assert "" + d + tail == d + tail;
    AtoiTooLarge(n);
  }

  /** Atoi rejects the decimal spelling of a number beyond the int range. */
  lemma AtoiTooLarge(n: nat)
    requires n > MaxInt
    ensures Atoi(Decimal(n)) == None
  {
    var d := Decimal(n);
    DecimalValue(n);
    assert IsDigit(d[0]);
  }

  /** An empty text gives the default limit. */
  lemma ParseLimitEmpty()
    ensures ParseLimit("") == DefaultLimit
  {
  }

  lemma ParseLimitThree()
    ensures ParseLimit("3") == 3
  {
    assert Decimal(3) == "3";
    assert "" + Decimal(3) + "" == "3";
    ParseLimitDecimal("", 3, "");
  }

  lemma ParseLimitWithTail()
    ensures ParseLimit(" 25 rows") == 25
  {
    assert Decimal(25) == "25";
    assert " " + Decimal(25) + " rows" == " 25 rows";
    ParseLimitDecimal(" ", 25, " rows");
  }

  lemma ParseLimitMinusOne()
    ensures ParseLimit("-1") == DefaultLimit
  {
    assert Decimal(1) == "1";
    assert "-" + Decimal(1) + "" == "-1";
    ParseLimitNegative(1, "");
  }
}
