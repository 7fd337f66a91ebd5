/** The Redis wire format of commands and integer replies (the RESP specification, sections 'Arrays'
    and 'Bulk strings'). Bytes are characters here; an argument may hold any of them. */
module Resp {
  import opened Models
  import opened Text

  const CRLF := "\r\n"

  // ----- encoding -----

  function Header(mark: char, n: nat): string {
    [mark] + Itoa(n) + CRLF
  }

  function Bulk(arg: string): string {
    Header('$', |arg|) + arg + CRLF
  }

  /** The pieces that `piece` makes of the items, one after the other. */
  function Join(piece: string -> string, items: seq<string>): string {
    if items == [] then "" else Join(piece, items[..|items| - 1]) + piece(items[|items| - 1])
  }

  lemma JoinOneMore(piece: string -> string, items: seq<string>, n: nat)
    requires n < |items|
    ensures Join(piece, items[..n + 1]) == Join(piece, items[..n]) + piece(items[n])
  {
    assert items[..n + 1][..n] == items[..n];
  }

  lemma {:induction false} JoinFromTheFront(piece: string -> string, items: seq<string>)
    requires items != []
    ensures Join(piece, items) == piece(items[0]) + Join(piece, items[1..])
  {
    var last := |items| - 1;
    if last > 0 {
      JoinFromTheFront(piece, items[..last]);
      assert items[1..][..last - 1] == items[..last][1..];
      assert items[1..][last - 1] == items[last];
    } else {
      assert items[..0] == [] && items[1..] == [];
    }
  }

  function Bulks(args: seq<string>): string {
    Join(Bulk, args)
  }

  /** An array of bulk strings. */
  function Encode(args: seq<string>): string {
    Header('*', |args|) + Bulks(args)
  }

  /** The command as the client builds it, piece by piece. */
  method WriteCommand(args: seq<string>) returns (b: string)
    ensures b == Encode(args)
  {
    b := "*";
    b := b + Itoa(|args|);
    b := b + "\r\n";
    for n := 0 to |args|
      invariant b == Header('*', |args|) + Bulks(args[..n])
    {
      JoinOneMore(Bulk, args, n);
      b := AppendBulk(b, args[n]);
    }
    assert args[..|args|] == args;
  }

  method AppendBulk(before: string, arg: string) returns (b: string)
    ensures b == before + Bulk(arg)
  {
    b := before + "$";
    b := b + Itoa(|arg|);
    b := b + "\r\n";
    b := b + arg;
    b := b + "\r\n";
    assert b == before + (['$'] + Itoa(|arg|) + CRLF + arg + CRLF);
  }

  // ----- decoding -----

  /** The digits at the front. */
  function DigitsAtFront(s: string): nat {
    if s != [] && IsDigit(s[0]) then 1 + DigitsAtFront(s[1..]) else 0
  }

  /** A header line: the number, and what follows the line. */
  function ReadHeader(mark: char, s: string): (result: Option<(nat, string)>)
    ensures result.Some? ==> |result.value.1| < |s|
  {
    if s == [] || s[0] != mark then None
    else
      var k := DigitsAtFront(s[1..]);
      DigitsFit(s[1..]);
      assert k > 0 && |s| >= 1 + k ==> s[1..1 + k] == s[1..][..k];
      if k == 0 || |s| < 1 + k + 2 || s[1 + k..1 + k + 2] != CRLF then None
      else Some((Atoi(s[1..1 + k]), s[1 + k + 2..]))
  }

  function ReadBulk(s: string): (result: Option<(string, string)>)
    ensures result.Some? ==> |result.value.1| < |s|
  {
    match ReadHeader('$', s)
    case None => None
    case Some((n, rest)) =>
      if |rest| < n + 2 || rest[n..n + 2] != CRLF then None else Some((rest[..n], rest[n + 2..]))
  }

  function ReadBulks(n: nat, s: string): Option<(seq<string>, string)> {
    if n == 0 then Some(([], s))
    else
      match ReadBulk(s)
      case None => None
      case Some((arg, rest)) =>
        match ReadBulks(n - 1, rest)
        case None => None
        case Some((args, end)) => Some(([arg] + args, end))
  }

  /** Reads one command and returns what follows it. */
  function Decode(s: string): Option<(seq<string>, string)> {
    match ReadHeader('*', s)
    case None => None
    case Some((n, rest)) => ReadBulks(n, rest)
  }

  lemma {:induction false} DigitsFit(s: string)
    ensures DigitsAtFront(s) <= |s|
    ensures AllDigits(s[..DigitsAtFront(s)])
  {
    if s != [] && IsDigit(s[0]) {
      DigitsFit(s[1..]);
      var k := DigitsAtFront(s);
      assert s[..k] == [s[0]] + s[1..][..k - 1];
    }
  }

  lemma {:induction false} DigitsEnd(digits: string, rest: string)
    requires AllDigits(digits) && (rest == [] || !IsDigit(rest[0]))
    ensures DigitsAtFront(digits + rest) == |digits|
  {
    if digits == [] {
      assert digits + rest == rest;
    } else {
      assert (digits + rest)[1..] == digits[1..] + rest;
      DigitsEnd(digits[1..], rest);
    }
  }

  lemma HeaderRoundTrip(mark: char, n: nat, rest: string)
    ensures ReadHeader(mark, Header(mark, n) + rest) == Some((n, rest))
  {
    var digits := Itoa(n);
    ItoaRoundTrip(n);
    var s := Header(mark, n) + rest;
    assert s[1..] == digits + (CRLF + rest);
    DigitsEnd(digits, CRLF + rest);
    var k := |digits|;
    assert s[1..1 + k] == digits;
    assert s[1 + k..1 + k + 2] == CRLF;
    assert s[1 + k + 2..] == rest;
  }

  lemma BulkRoundTrip(arg: string, rest: string)
    ensures ReadBulk(Bulk(arg) + rest) == Some((arg, rest))
  {
    assert Bulk(arg) + rest == Header('$', |arg|) + (arg + CRLF + rest);
    HeaderRoundTrip('$', |arg|, arg + CRLF + rest);
    var tail := arg + CRLF + rest;
    assert tail[..|arg|] == arg && tail[|arg|..|arg| + 2] == CRLF && tail[|arg| + 2..] == rest;
  }

  lemma {:induction false} BulksRoundTrip(args: seq<string>, rest: string)
    ensures ReadBulks(|args|, Bulks(args) + rest) == Some((args, rest))
  {
    if args == [] {
      assert Bulks(args) + rest == rest;
    } else {
      var first, others := args[0], args[1..];
      JoinFromTheFront(Bulk, args);
      assert [first] + others == args;
      assert Bulks(args) + rest == Bulk(first) + (Bulks(others) + rest);
      BulkRoundTrip(first, Bulks(others) + rest);
      BulksRoundTrip(others, rest);
    }
  }

  /** Whatever the argument bytes are, a command is read back as it was written, and reading stops
      exactly at its end. */
  lemma RoundTrip(args: seq<string>, rest: string)
    ensures Decode(Encode(args) + rest) == Some((args, rest))
  {
    assert Encode(args) + rest == Header('*', |args|) + (Bulks(args) + rest);
    HeaderRoundTrip('*', |args|, Bulks(args) + rest);
    BulksRoundTrip(args, rest);
  }

  /** No encoding is a proper prefix of another, so different argument lists have different encodings
      and a stream of commands splits in one way only. */
  lemma UniquelyDecodable(a: seq<string>, b: seq<string>)
    requires Encode(a) <= Encode(b)
    ensures a == b
  {
    var rest := Encode(b)[|Encode(a)|..];
    assert Encode(b) == Encode(a) + rest;
    RoundTrip(a, rest);
    RoundTrip(b, "");
    assert Encode(b) + "" == Encode(b);
  }

  // ----- integer replies -----

  /** reader.ReadString('\n'), the delimiter cut off: the line and what follows it. */
  function ReadString(s: string): (result: Option<(string, string)>)
    ensures result.Some? ==> |result.value.1| < |s|
  {
    if s == [] then None
    else if s[0] == '\n' then Some(("", s[1..]))
    else
      match ReadString(s[1..])
      case None => None
      case Some((line, rest)) => Some(([s[0]] + line, rest))
  }

  function TrimCr(line: string): string {
    if line != [] && line[|line| - 1] == '\r' then line[..|line| - 1] else line
  }

  function ReadLine(s: string): Option<(string, string)> {
    match ReadString(s)
    case None => None
    case Some((line, rest)) => Some((TrimCr(line), rest))
  }

  predicate IsSpace(c: char) {
    c == ' ' || '\t' <= c <= '\r'
  }

  function TrimSpace(s: string): string {
    if s != [] && IsSpace(s[0]) then TrimSpace(s[1..])
    else if s != [] && IsSpace(s[|s| - 1]) then TrimSpace(s[..|s| - 1])
    else s
  }

  datatype IntReply = Value(n: int, rest: string) | BadReply

  /** strconv.Atoi */
  function ParseInt(s: string): Option<int> {
    if s != [] && AllDigits(s) then Some(Atoi(s))
    else if |s| > 1 && s[0] == '-' && AllDigits(s[1..]) then Some(0 - (Atoi(s[1..]) as int))
    else if |s| > 1 && s[0] == '+' && AllDigits(s[1..]) then Some(Atoi(s[1..]))
    else None
  }

  function ReadInt(s: string): IntReply {
    match ReadLine(s)
    case None => BadReply
    case Some((line, rest)) =>
      if line == [] || line[0] != ':' then BadReply
      else
        match ParseInt(TrimSpace(line[1..]))
        case None => BadReply
        case Some(n) => Value(n, rest)
  }

  function Signed(n: int): string {
    if n < 0 then "-" + Itoa(-n) else Itoa(n)
  }

  /** An integer reply as the server writes it. */
  function IntegerReply(n: int): string {
    ":" + Signed(n) + CRLF
  }

  predicate NumberText(s: string) {
    s != [] && forall i :: 0 <= i < |s| ==> s[i] == '-' || IsDigit(s[i])
  }

  lemma DigitsParse(digits: string)
    requires digits != [] && AllDigits(digits)
    ensures NumberText(digits) && ParseInt(digits) == Some(Atoi(digits))
    ensures NumberText("-" + digits) && ParseInt("-" + digits) == Some(0 - (Atoi(digits) as int))
  {
    var s := "-" + digits;
    assert s[1..] == digits;
    assert !IsDigit(s[0]);
  }

  lemma SignedParses(n: int)
    ensures NumberText(Signed(n)) && ParseInt(Signed(n)) == Some(n)
  {
    var m := if n < 0 then -n else n;
    ItoaRoundTrip(m);
    DigitsParse(Itoa(m));
  }

  lemma {:induction false} ReadStringFindsTheEnd(line: string, rest: string)
    requires forall i :: 0 <= i < |line| ==> line[i] != '\n'
    ensures ReadString(line + "\n" + rest) == Some((line, rest))
  {
    var s := line + "\n" + rest;
    if line == [] {
      assert s[1..] == rest;
    } else {
      assert s[1..] == line[1..] + "\n" + rest;
      ReadStringFindsTheEnd(line[1..], rest);
      assert [line[0]] + line[1..] == line;
    }
  }

  lemma ReplyLine(number: string, rest: string)
    requires NumberText(number)
    ensures ReadLine(":" + number + CRLF + rest) == Some((":" + number, rest))
  {
    var line := ":" + number + "\r";
    assert ":" + number + CRLF + rest == line + "\n" + rest;
    ReadStringFindsTheEnd(line, rest);
    assert line[..|line| - 1] == ":" + number;
  }

  /** Counts and times to live, negative ones included, are read as the server wrote them. */
  lemma IntegerReplyRoundTrip(n: int, rest: string)
    ensures ReadInt(IntegerReply(n) + rest) == Value(n, rest)
  {
    SignedParses(n);
    ReplyLine(Signed(n), rest);
    assert (":" + Signed(n))[1..] == Signed(n);
    assert TrimSpace(Signed(n)) == Signed(n);
  }

  predicate AllSpaces(s: string) {
    forall i :: 0 <= i < |s| ==> s[i] in [' ', '\t', '\r']
  }

  lemma {:induction false} TrimSpaceTrims(before: string, text: string, behind: string)
    requires AllSpaces(before) && AllSpaces(behind)
    requires text != [] && !IsSpace(text[0]) && !IsSpace(text[|text| - 1])
    ensures TrimSpace(before + text + behind) == text
    decreases |before| + |behind|
  {
    var s := before + text + behind;
    if before != [] {
      assert s[0] == before[0] && s[1..] == before[1..] + text + behind;
      TrimSpaceTrims(before[1..], text, behind);
    } else if behind != [] {
      assert s[0] == text[0] && s[|s| - 1] == behind[|behind| - 1];
      assert s[..|s| - 1] == before + text + behind[..|behind| - 1];
      TrimSpaceTrims(before, text, behind[..|behind| - 1]);
    } else {
      assert s == text;
    }
  }

  /** Blanks around the number of a reply do not matter. */
  lemma PaddedReplyRoundTrip(before: string, n: int, behind: string, rest: string)
    requires AllSpaces(before) && AllSpaces(behind)
    ensures ReadInt(":" + before + Signed(n) + behind + CRLF + rest) == Value(n, rest)
  {
    SignedParses(n);
    var text := before + Signed(n) + behind;
    LineOf(text, rest);
    assert ":" + before + Signed(n) + behind + CRLF + rest == ":" + text + CRLF + rest;
    assert (":" + text)[1..] == text;
    TrimSpaceTrims(before, Signed(n), behind);
  }

  lemma LineOf(text: string, rest: string)
    requires forall i :: 0 <= i < |text| ==> text[i] != '\n'
    ensures ReadLine(":" + text + CRLF + rest) == Some((":" + text, rest))
  {
    var line := ":" + text + "\r";
    assert ":" + text + CRLF + rest == line + "\n" + rest;
    ReadStringFindsTheEnd(line, rest);
    assert line[..|line| - 1] == ":" + text;
  }

  /** A line that is not an integer reply, an error reply among them, gives no number. */
  lemma OtherRepliesGiveNoNumber(s: string)
    requires s == [] || s[0] != ':'
    ensures ReadInt(s) == BadReply
  {
  }
}
