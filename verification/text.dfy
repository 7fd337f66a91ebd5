/** Decimal numerals and ILIKE patterns. */
module Text {
  // ----- strconv.Itoa and Atoi for non-negative numbers -----

  function Digit(n: nat): char
    requires n < 10
  {
    "0123456789"[n]
  }

  predicate IsDigit(c: char) {
    '0' <= c <= '9'
  }

  function DigitValue(c: char): nat
    requires IsDigit(c)
  {
    c as int - '0' as int
  }

  lemma DigitRoundTrip(n: nat)
    requires n < 10
    ensures IsDigit(Digit(n)) && DigitValue(Digit(n)) == n
  {
    assert Digit(0) == '0' && Digit(1) == '1' && Digit(2) == '2' && Digit(3) == '3' && Digit(4) == '4';
    assert Digit(5) == '5' && Digit(6) == '6' && Digit(7) == '7' && Digit(8) == '8' && Digit(9) == '9';
  }

  function Itoa(n: nat): string {
    if n < 10 then [Digit(n)] else Itoa(n / 10) + [Digit(n % 10)]
  }

  predicate AllDigits(s: string) {
    forall i :: 0 <= i < |s| ==> IsDigit(s[i])
  }

  function Atoi(s: string): nat
    requires AllDigits(s)
  {
    if s == [] then 0 else 10 * Atoi(s[..|s| - 1]) + DigitValue(s[|s| - 1])
  }

  lemma {:induction false} ItoaRoundTrip(n: nat)
    ensures |Itoa(n)| >= 1 && AllDigits(Itoa(n)) && Atoi(Itoa(n)) == n
  {
    if n < 10 {
      DigitRoundTrip(n);
      assert Itoa(n)[..0] == [];
    } else {
      ItoaRoundTrip(n / 10);
      DigitRoundTrip(n % 10);
      assert Itoa(n)[..|Itoa(n)| - 1] == Itoa(n / 10);
    }
  }

  // ----- ILIKE -----

  function Lower(c: char): char {
    if 'A' <= c <= 'Z' then (c as int + 32) as char else c
  }

  predicate SameLetter(a: char, b: char) {
    Lower(a) == Lower(b)
  }

  /** text ILIKE pattern: % stands for any text, _ for any letter, and a backslash quotes. */
  predicate ILike(text: string, pattern: string)
    decreases |text| + |pattern|
  {
    if pattern == [] then text == []
    else if pattern[0] == '%' then ILike(text, pattern[1..]) || (text != [] && ILike(text[1..], pattern))
    else if pattern[0] == '\\' && |pattern| > 1 then
      text != [] && SameLetter(text[0], pattern[1]) && ILike(text[1..], pattern[2..])
    else text != [] && (pattern[0] == '_' || SameLetter(text[0], pattern[0])) && ILike(text[1..], pattern[1..])
  }

  /** The search term has no character that a pattern reads specially. */
  predicate Literal(term: string) {
    forall i :: 0 <= i < |term| ==> term[i] != '%' && term[i] != '_' && term[i] != '\\'
  }

  predicate StartsWithTerm(text: string, term: string) {
    |term| <= |text| && forall i :: 0 <= i < |term| ==> SameLetter(text[i], term[i])
  }

  /** The text contains the term, upper and lower case alike. */
  ghost predicate ContainsTerm(text: string, term: string) {
    exists at :: 0 <= at <= |text| && StartsWithTerm(text[at..], term)
  }

  lemma {:induction false} PercentMatchesAll(text: string)
    ensures ILike(text, "%")
  {
    if text == [] {
      assert "%"[1..] == [];
    } else {
      PercentMatchesAll(text[1..]);
    }
  }

  lemma {:induction false} LiteralThenPercent(text: string, term: string)
    requires Literal(term)
    ensures ILike(text, term + "%") <==> StartsWithTerm(text, term)
  {
    if term == [] {
      assert term + "%" == "%";
      PercentMatchesAll(text);
    } else {
      assert (term + "%")[1..] == term[1..] + "%";
      if text != [] {
        LiteralThenPercent(text[1..], term[1..]);
        assert forall i :: 1 <= i < |term| ==> term[i] == term[1..][i - 1];
        assert forall i :: 1 <= i < |text| ==> text[i] == text[1..][i - 1];
        if StartsWithTerm(text[1..], term[1..]) && SameLetter(text[0], term[0]) {
          forall i | 0 <= i < |term|
            ensures SameLetter(text[i], term[i])
          {
            if i > 0 {
              assert SameLetter(text[1..][i - 1], term[1..][i - 1]);
            }
          }
        }
        if StartsWithTerm(text, term) {
          forall i | 0 <= i < |term[1..]|
            ensures SameLetter(text[1..][i], term[1..][i])
          {
            assert SameLetter(text[i + 1], term[i + 1]);
          }
        }
      }
    }
  }

  lemma {:induction false} PercentSkips(text: string, rest: string)
    ensures ILike(text, "%" + rest) <==> exists at :: 0 <= at <= |text| && ILike(text[at..], rest)
  {
    var pattern := "%" + rest;
    assert pattern[1..] == rest;
    assert text[0..] == text;
    if text != [] {
      PercentSkips(text[1..], rest);
      if at :| 0 <= at <= |text| && ILike(text[at..], rest) {
        if at > 0 {
          assert text[1..][at - 1..] == text[at..];
        }
      }
      if at :| 0 <= at <= |text[1..]| && ILike(text[1..][at..], rest) {
        assert text[at + 1..] == text[1..][at..];
      }
    }
  }

  /** For a term without pattern characters, ILIKE '%term%' asks whether the text contains it. */
  lemma SearchFindsTheTerm(text: string, term: string)
    requires Literal(term)
    ensures ILike(text, "%" + term + "%") <==> ContainsTerm(text, term)
  {
    assert "%" + term + "%" == "%" + (term + "%");
    PercentSkips(text, term + "%");
    forall at | 0 <= at <= |text| {
      LiteralThenPercent(text[at..], term);
    }
  }

  /** A text that the term matches as a pattern, with every special character read as one: any text is
      none, any letter is an "a", a quoted character is itself, and the backslash at the end quotes the
      percent sign behind the term. */
  function Misread(term: string): (text: string)
    ensures |text| <= |term|
  {
    if term == [] then []
    else if term[0] == '%' then Misread(term[1..])
    else if term[0] == '\\' then if |term| > 1 then [term[1]] + Misread(term[2..]) else "%"
    else [if term[0] == '_' then 'a' else term[0]] + Misread(term[1..])
  }

  lemma {:induction false} MisreadMatches(term: string)
    ensures ILike(Misread(term), term + "%")
  {
    var pattern := term + "%";
    if term == [] {
      PercentMatchesAll("");
      assert pattern == "%";
    } else if term[0] == '\\' {
      if |term| > 1 {
        MisreadMatches(term[2..]);
        assert pattern[2..] == term[2..] + "%";
      } else {
        assert pattern[2..] == "";
      }
    } else {
      MisreadMatches(term[1..]);
      assert pattern[1..] == term[1..] + "%";
    }
  }

  lemma {:induction false} MisreadStartsOnlyLiterals(term: string)
    ensures StartsWithTerm(Misread(term), term) ==> Literal(term)
  {
    if term != [] && StartsWithTerm(Misread(term), term) {
      var text := Misread(term);
      assert SameLetter(text[0], term[0]);
      if term[0] != '%' && term[0] != '\\' {
        assert text == [text[0]] + Misread(term[1..]);
        assert forall i :: 0 <= i < |term[1..]| ==> SameLetter(text[1..][i], term[1..][i]);
        MisreadStartsOnlyLiterals(term[1..]);
        assert forall i :: 1 <= i < |term| ==> term[i] == term[1..][i - 1];
      }
    }
  }

  /** Every term with a pattern character is found in a text that does not contain it. */
  lemma PatternCharactersAreNotQuoted(term: string)
    requires !Literal(term)
    ensures ILike(Misread(term), "%" + term + "%") && !ContainsTerm(Misread(term), term)
  {
    var text := Misread(term);
    MisreadMatches(term);
    assert "%" + term + "%" == "%" + (term + "%");
    assert text[0..] == text;
    PercentSkips(text, term + "%");
    MisreadStartsOnlyLiterals(term);
  }

  /** The search finds exactly the texts that contain the term if and only if the term has no pattern
      character. */
  lemma SearchIsExactForLiterals(term: string)
    ensures (forall text :: ILike(text, "%" + term + "%") <==> ContainsTerm(text, term)) <==> Literal(term)
  {
    if Literal(term) {
      forall text {
        SearchFindsTheTerm(text, term);
      }
    } else {
      PatternCharactersAreNotQuoted(term);
    }
  }
}
