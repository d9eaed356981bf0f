/** Requests and replies on the wire (src/RespParser.cpp): RESP2 arrays with a
    plain-text fallback in, RESP2 values out. */
module Resp {
  import opened Basics
  import opened Numerals
  import opened Wire

  // ---- replies --------------------------------------------------------------

  function SimpleString(s: string): string {
    "+" + s + CRLF
  }

  function Error(message: string): string {
    "-ERR " + message + CRLF
  }

  function Integer(n: int): string {
    ":" + DecimalInt(n) + CRLF
  }

  const NULL := "$-1\r\n"

  method SerializeArray(items: seq<string>) returns (r: string)
    ensures r == Array(items)
  {
    r := "*" + Decimal(|items|) + CRLF;
    ghost var header := r;
    for i := 0 to |items|
      invariant r == header + Bulks(items[..i])
    {
      assert items[..i + 1] == items[..i] + [items[i]];
      BulksSnoc(items[..i], items[i]);
      Assoc(header, Bulks(items[..i]), Bulk(items[i]));
      hide Bulk, Bulks, Decimal;
      r := r + Bulk(items[i]);
    }
    assert items[..|items|] == items;
  }

  // ---- requests -------------------------------------------------------------

  /** input.find("\r\n", pos) */
  function FindCrlf(input: string, pos: nat): (r: Option<nat>)
    ensures r.Some? ==> pos <= r.value && r.value + 2 <= |input|
    decreases |input| - pos
  {
    if pos + 2 > |input| then None
    else if input[pos] == '\r' && input[pos + 1] == '\n' then Some(pos)
    else FindCrlf(input, pos + 1)
  }

  /** The size check after a length line. The length is an int converted to size_t,
      so a negative one passes unless it reaches back before the input. */
  predicate PastEnd(start: nat, len: int, size: nat) {
    if len >= 0 then start + len > size else start + len < 0
  }

  /** input.substr(start, len): a negative length reads to the end. */
  function Substr(input: string, start: nat, len: int): string
    requires start <= |input| && !PastEnd(start, len, |input|)
  {
    if len >= 0 then input[start..start + len] else input[start..]
  }

  function SkipCrlf(input: string, pos: nat): nat {
    if pos + 1 < |input| && input[pos] == '\r' && input[pos + 1] == '\n' then pos + 2 else pos
  }

  /** The loop over the `count` bulk strings of a request. */
  function ParseBulks(input: string, pos: nat, count: int, tokens: seq<string>): seq<string>
    decreases count
  {
    if count <= 0 then tokens
    else if pos >= |input| || input[pos] != '$' then []
    else
      var crlf := FindCrlf(input, pos + 1);
      if crlf.None? then [] else
        var len := Stoi(input[pos + 1..crlf.value]);
        var start := crlf.value + 2;
        if len.None? || PastEnd(start, len.value, |input|) then [] else
          ParseBulks(input, SkipCrlf(input, start + len.value), count - 1, tokens + [Substr(input, start, len.value)])
  }

  function ParseArray(input: string): seq<string>
    requires input != ""
  {
    if input[0] != '*' then [] else
      var crlf := FindCrlf(input, 1);
      if crlf.None? then [] else
        var count := Stoi(input[1..crlf.value]);
        if count.None? then [] else ParseBulks(input, crlf.value + 2, count.value, [])
  }

  /** The plain-text splitter, character by character: `quote` is the open quote. */
  function SplitFrom(input: string, tokens: seq<string>, current: string, quote: Option<char>): seq<string> {
    if input == "" then
      if current == "" then tokens else tokens + [current]
    else
      var c, rest := input[0], input[1..];
      if c == '\r' || c == '\n' then SplitFrom(rest, tokens, current, quote)
      else if (c == '"' || c == '\'') && (quote.None? || c == quote.value) then
        SplitFrom(rest, tokens, current, if quote.None? then Some(c) else None)
      else if IsSpace(c) && quote.None? then
        SplitFrom(rest, if current == "" then tokens else tokens + [current], "", quote)
      else SplitFrom(rest, tokens, current + [c], quote)
  }

  function ParsePlainText(input: string): seq<string> {
    SplitFrom(input, [], "", None)
  }

  function ParseRequest(raw: string): seq<string> {
    var input := SkipSpaces(raw);
    if input == "" then []
    else if input[0] == '*' && ParseArray(input) != [] then ParseArray(input)
    else ParsePlainText(input)
  }

  // ---- the parser's loops, against those functions ----------------------------

  method RunParseRequest(raw: string) returns (tokens: seq<string>)
    ensures tokens == ParseRequest(raw)
  {
    var input := raw;
    while input != "" && IsSpace(input[0])
      invariant SkipSpaces(input) == SkipSpaces(raw)
      decreases |input|
    {
      input := input[1..];
    }
    if input == "" {
      return [];
    }
    if input[0] == '*' {
      tokens := RunParseArray(input);
      if tokens != [] {
        return;
      }
    }
    tokens := RunParsePlainText(input);
  }

  method RunParseArray(input: string) returns (tokens: seq<string>)
    requires input != ""
    ensures tokens == ParseArray(input)
  {
    hide FindCrlf, Stoi, ParseBulks;
    var pos: nat := 0;
    if input[pos] != '*' { return []; }
    pos := pos + 1;
    var crlf := FindCrlf(input, pos);
    if crlf.None? { return []; }
    var count := Stoi(input[pos..crlf.value]);
    if count.None? { return []; }
    pos := crlf.value + 2;
    tokens := [];
    var i := 0;
    while i < count.value
      invariant ParseBulks(input, pos, count.value - i, tokens) == ParseArray(input)
    {
      ParseBulksFails(input, pos, count.value - i, tokens);
      ghost var at := pos;
      if pos >= |input| || input[pos] != '$' { return []; }
      pos := pos + 1;
      crlf := FindCrlf(input, pos);
      if crlf.None? { return []; }
      var len := Stoi(input[pos..crlf.value]);
      if len.None? { return []; }
      pos := crlf.value + 2;
      if PastEnd(pos, len.value, |input|) { return []; }
      ParseBulksStep(input, at, count.value - i, tokens, crlf.value, len.value);
      tokens := tokens + [Substr(input, pos, len.value)];
      pos := pos + len.value;
      if pos + 1 < |input| && input[pos] == '\r' && input[pos + 1] == '\n' {
        pos := pos + 2;
      }
      i := i + 1;
    }
    ParseBulksEnds(input, pos, count.value - i, tokens);
  }

  method RunParsePlainText(input: string) returns (tokens: seq<string>)
    ensures tokens == ParsePlainText(input)
  {
    tokens := [];
    var current, inQuotes, quoteChar := "", false, '\0';
    for i := 0 to |input|
      invariant SplitFrom(input[i..], tokens, current, if inQuotes then Some(quoteChar) else None)
                == ParsePlainText(input)
    {
      var c := input[i];
      assert input[i..][0] == c && input[i..][1..] == input[i + 1..];
      if c == '\r' || c == '\n' {
      } else if (c == '"' || c == '\'') && (!inQuotes || c == quoteChar) {
        inQuotes := !inQuotes;
        quoteChar := if inQuotes then c else '\0';
      } else if IsSpace(c) && !inQuotes {
        if current != "" {
          tokens := tokens + [current];
          current := "";
        }
      } else {
        current := current + [c];
      }
    }
    if current != "" {
      tokens := tokens + [current];
    }
  }

  // ---- array round trip -------------------------------------------------------

  /** `digits CRLF` at position `pos` of the input is found and cut out. */
  lemma {:induction false} FindAfterDigits(input: string, pos: nat, digits: string, more: string)
    requires AllDigits(digits) && pos <= |input| && input[pos..] == digits + CRLF + more
    ensures FindCrlf(input, pos) == Some(pos + |digits|)
    ensures input[pos..pos + |digits|] == digits
    decreases |digits|
  {
    var t := digits + CRLF + more;
    assert input[pos] == t[0] && input[pos + 1] == t[1];
    if digits != "" {
      assert input[pos + 1..] == input[pos..][1..] == digits[1..] + CRLF + more;
      FindAfterDigits(input, pos + 1, digits[1..], more);
      assert input[pos..pos + |digits|] == t[..|digits|];
    }
  }

  predicate Sendable(items: seq<string>) {
    |items| <= INT32_MAX && forall i :: 0 <= i < |items| ==> |items[i]| <= INT32_MAX
  }

  lemma ParseBulksEnds(input: string, pos: nat, count: int, acc: seq<string>)
    requires count <= 0
    ensures ParseBulks(input, pos, count, acc) == acc
  {
  }

  /** One round of the loop, with some check failed. */
  lemma ParseBulksFails(input: string, pos: nat, count: int, acc: seq<string>)
    requires count > 0
    ensures pos >= |input| || input[pos] != '$' || FindCrlf(input, pos + 1).None?
            || Stoi(input[pos + 1..FindCrlf(input, pos + 1).value]).None?
            || PastEnd(FindCrlf(input, pos + 1).value + 2,
                       Stoi(input[pos + 1..FindCrlf(input, pos + 1).value]).value, |input|)
            ==> ParseBulks(input, pos, count, acc) == []
  {
    hide FindCrlf, Stoi, Substr, SkipCrlf, PastEnd;
  }

  /** One round of the loop, with every check passed. */
  lemma ParseBulksStep(input: string, pos: nat, count: int, acc: seq<string>, crlf: nat, len: int)
    requires count > 0 && pos < |input| && input[pos] == '$'
    requires FindCrlf(input, pos + 1) == Some(crlf)
    requires Stoi(input[pos + 1..crlf]) == Some(len) && !PastEnd(crlf + 2, len, |input|)
    ensures ParseBulks(input, pos, count, acc)
            == ParseBulks(input, SkipCrlf(input, crlf + 2 + len), count - 1, acc + [Substr(input, crlf + 2, len)])
  {
    hide FindCrlf, Stoi, Substr, SkipCrlf, PastEnd;
  }

  function From(input: string, pos: nat): string
    requires pos <= |input|
  {
    input[pos..]
  }

  /** The bulk string at position `pos` of the input. */
  lemma ParseOneBulk(input: string, pos: nat, x: string, more: string, count: int, acc: seq<string>)
    requires |x| <= INT32_MAX && count > 0
    requires pos <= |input| && From(input, pos) == Bulk(x) + more
    ensures ParseBulks(input, pos, count, acc) == ParseBulks(input, pos + |Bulk(x)|, count - 1, acc + [x])
  {
    hide Decimal, FindCrlf, Stoi, ParseBulks;
    var d := Decimal(|x|);
    BulkParts(x, more);
    AfterDrop(input, pos, Bulk(x) + more);
    hide Bulk;
    FindAfterDigits(input, pos + 1, d, x + CRLF + more);
    StoiOfDecimal(|x|);
    ParseBulksStep(input, pos, count, acc, pos + 1 + |d|, |x|);
  }

  lemma AfterDrop(input: string, pos: nat, s: string)
    requires pos <= |input| && input[pos..] == s
    ensures |input| == pos + |s|
    ensures forall i :: 0 <= i < |s| ==> input[pos + i] == s[i]
    ensures forall i, j :: 0 <= i <= j <= |s| ==> input[pos + i..pos + j] == s[i..j]
    ensures forall i :: 0 <= i <= |s| ==> input[pos + i..] == s[i..]
  {
  }

  lemma BulkParts(x: string, more: string)
    ensures var s := Bulk(x) + more;
            var start := 1 + |Decimal(|x|)| + 2;
            && start + |x| + 2 <= |s| && start + |x| + 2 == |Bulk(x)|
            && s[0] == '$'
            && s[1..] == Decimal(|x|) + CRLF + (x + CRLF + more)
            && s[start..start + |x|] == x
            && s[start + |x|] == '\r' && s[start + |x| + 1] == '\n'
  {
    hide Decimal;
    var d := Decimal(|x|);
    assert Bulk(x) + more == "$" + (d + CRLF + (x + CRLF + more));
  }

  lemma DropFront(input: string, pos: nat, front: string, more: string)
    requires pos <= |input| && From(input, pos) == front + more
    ensures pos + |front| <= |input| && From(input, pos + |front|) == more
  {
    assert input[pos..][|front|..] == more;
  }

  lemma {:induction false} ParseAllBulks(input: string, pos: nat, xs: seq<string>, rest: string, acc: seq<string>)
    requires Sendable(xs) && pos <= |input| && From(input, pos) == Bulks(xs) + rest
    ensures ParseBulks(input, pos, |xs|, acc) == acc + xs
    decreases |xs|
  {
    hide Bulk, Bulks, ParseBulks, From, Sendable;
    if xs == [] {
      ParseBulksEnds(input, pos, |xs|, acc);
      assert acc + xs == acc;
    } else {
      FirstBulk(input, pos, xs, rest);
      ParseOneBulk(input, pos, xs[0], Bulks(xs[1..]) + rest, |xs|, acc);
      ParseAllBulks(input, pos + |Bulk(xs[0])|, xs[1..], rest, acc + [xs[0]]);
      MoveFirst(acc, xs);
    }
  }

  lemma FirstBulk(input: string, pos: nat, xs: seq<string>, rest: string)
    requires xs != [] && Sendable(xs) && pos <= |input| && From(input, pos) == Bulks(xs) + rest
    ensures |xs[0]| <= INT32_MAX && Sendable(xs[1..])
    ensures From(input, pos) == Bulk(xs[0]) + (Bulks(xs[1..]) + rest)
    ensures pos + |Bulk(xs[0])| <= |input|
    ensures From(input, pos + |Bulk(xs[0])|) == Bulks(xs[1..]) + rest
  {
    hide Bulk, From;
    Assoc(Bulk(xs[0]), Bulks(xs[1..]), rest);
    DropFront(input, pos, Bulk(xs[0]), Bulks(xs[1..]) + rest);
  }

  /** The header says how many bulk strings to read, and where they start. */
  lemma HeaderIsRead(n: nat, tail: string)
    requires 0 < n <= INT32_MAX
    ensures var input := ArrayHeader(n) + tail;
            && |ArrayHeader(n)| <= |input| && From(input, |ArrayHeader(n)|) == tail
            && ParseArray(input) == ParseBulks(input, |ArrayHeader(n)|, n, [])
            && input != "" && input[0] == '*' && SkipSpaces(input) == input
  {
    hide Decimal, FindCrlf, Stoi, ParseBulks;
    var d := Decimal(n);
    var input := ArrayHeader(n) + tail;
    assert input == "*" + (d + CRLF + tail);
    FindAfterDigits(input, 1, d, tail);
    StoiOfDecimal(n);
  }

  /** Round trip: a serialized array is parsed back as itself, whatever follows it. */
  lemma ArrayRoundTrip(xs: seq<string>, rest: string)
    requires xs != [] && Sendable(xs)
    ensures ParseRequest(Array(xs) + rest) == xs
  {
    hide ArrayHeader, SkipSpaces, ParseArray, Bulks, ParseBulks, From, ParsePlainText;
    var header := ArrayHeader(|xs|);
    Assoc(header, Bulks(xs), rest);
    HeaderIsRead(|xs|, Bulks(xs) + rest);
    ParseAllBulks(header + (Bulks(xs) + rest), |header|, xs, rest, []);
    assert [] + xs == xs;
  }

  // ---- arrays without the line break after a value ----------------------------------

  function TightBulk(x: string): string {
    "$" + Decimal(|x|) + CRLF + x
  }

  function TightBulks(xs: seq<string>): string {
    if xs == [] then "" else TightBulk(xs[0]) + TightBulks(xs[1..])
  }

  lemma ParseTightBulk(input: string, pos: nat, x: string, more: string, count: int, acc: seq<string>)
    requires |x| <= INT32_MAX && count > 0 && !(CRLF <= more)
    requires pos <= |input| && From(input, pos) == TightBulk(x) + more
    ensures ParseBulks(input, pos, count, acc) == ParseBulks(input, pos + |TightBulk(x)|, count - 1, acc + [x])
  {
    hide Decimal, FindCrlf, Stoi, ParseBulks;
    var d := Decimal(|x|);
    var start := 1 + |d| + 2;
    assert TightBulk(x) + more == "$" + (d + CRLF + (x + more));
    AfterDrop(input, pos, TightBulk(x) + more);
    FindAfterDigits(input, pos + 1, d, x + more);
    StoiOfDecimal(|x|);
    assert (TightBulk(x) + more)[start..start + |x|] == x;
    assert input[pos + |TightBulk(x)|..] == more;
    ParseBulksStep(input, pos, count, acc, pos + 1 + |d|, |x|);
  }

  lemma {:induction false} ParseTightBulks(input: string, pos: nat, xs: seq<string>, rest: string, acc: seq<string>)
    requires Sendable(xs) && pos <= |input| && From(input, pos) == TightBulks(xs) + rest && !(CRLF <= rest)
    ensures ParseBulks(input, pos, |xs|, acc) == acc + xs
    decreases |xs|
  {
    hide TightBulk, ParseBulks, From;
    if xs == [] {
      ParseBulksEnds(input, pos, |xs|, acc);
      assert acc + xs == acc;
    } else {
      var more := TightBulks(xs[1..]) + rest;
      Assoc(TightBulk(xs[0]), TightBulks(xs[1..]), rest);
      NoBreakNext(xs[1..], rest);
      DropFront(input, pos, TightBulk(xs[0]), more);
      ParseTightBulk(input, pos, xs[0], more, |xs|, acc);
      ParseTightBulks(input, pos + |TightBulk(xs[0])|, xs[1..], rest, acc + [xs[0]]);
      MoveFirst(acc, xs);
    }
  }

  lemma NoBreakNext(xs: seq<string>, rest: string)
    requires !(CRLF <= rest)
    ensures !(CRLF <= TightBulks(xs) + rest)
  {
    if xs == [] {
      assert "" + rest == rest;
    } else {
      assert (TightBulks(xs) + rest)[0] == '$';
    }
  }

  /** The line break after each value is optional. */
  lemma TightArrayIsRead(xs: seq<string>, rest: string)
    requires xs != [] && Sendable(xs) && !(CRLF <= rest)
    ensures ParseRequest(ArrayHeader(|xs|) + TightBulks(xs) + rest) == xs
  {
    hide ArrayHeader, SkipSpaces, ParseArray, TightBulks, ParseBulks, From, ParsePlainText;
    var header := ArrayHeader(|xs|);
    Assoc(header, TightBulks(xs), rest);
    HeaderIsRead(|xs|, TightBulks(xs) + rest);
    ParseTightBulks(header + (TightBulks(xs) + rest), |header|, xs, rest, []);
    assert [] + xs == xs;
  }

  // ---- arrays cut short, or wrong after a while -------------------------------------

  /** Any number of bulk strings, with more to come after them. */
  lemma {:induction false} ParseSomeBulks(input: string, pos: nat, xs: seq<string>, rest: string, count: int,
                                          acc: seq<string>)
    requires Sendable(xs) && pos <= |input| && From(input, pos) == Bulks(xs) + rest && |xs| <= count
    ensures pos + |Bulks(xs)| <= |input| && From(input, pos + |Bulks(xs)|) == rest
    ensures ParseBulks(input, pos, count, acc) == ParseBulks(input, pos + |Bulks(xs)|, count - |xs|, acc + xs)
    decreases |xs|
  {
    hide Bulk, ParseBulks, From, Sendable;
    if xs == [] {
      assert "" + rest == rest && acc + xs == acc;
    } else {
      FirstBulk(input, pos, xs, rest);
      ParseOneBulk(input, pos, xs[0], Bulks(xs[1..]) + rest, count, acc);
      ParseSomeBulks(input, pos + |Bulk(xs[0])|, xs[1..], rest, count - 1, acc + [xs[0]]);
      MoveFirst(acc, xs);
    }
  }

  /** An array of n whose first values are `xs`, and then this. */
  function Begun(n: nat, xs: seq<string>, rest: string): string {
    ArrayHeader(n) + (Bulks(xs) + rest)
  }

  lemma BegunIsRead(n: nat, xs: seq<string>, rest: string)
    requires Sendable(xs) && |xs| < n <= INT32_MAX
    ensures var input, pos := Begun(n, xs, rest), |ArrayHeader(n)| + |Bulks(xs)|;
            && input != "" && pos <= |input| && From(input, pos) == rest
            && ParseArray(input) == ParseBulks(input, pos, n - |xs|, xs)
  {
    hide ArrayHeader, Bulks, ParseBulks, From, ParseArray, SkipSpaces;
    HeaderIsRead(n, Bulks(xs) + rest);
    ParseSomeBulks(Begun(n, xs, rest), |ArrayHeader(n)|, xs, rest, n, []);
    assert [] + xs == xs;
  }

  /** No line break of two characters. */
  predicate NoCrlf(t: string) {
    forall i :: 0 <= i < |t| - 1 ==> !(t[i] == '\r' && t[i + 1] == '\n')
  }

  lemma {:induction false} FindsNone(input: string, pos: nat)
    requires pos <= |input| && NoCrlf(input[pos..])
    ensures FindCrlf(input, pos).None?
    decreases |input| - pos
  {
    if pos + 2 <= |input| {
      var t := input[pos..];
      assert t[0] == input[pos] && t[1] == input[pos + 1];
      assert forall i :: 0 <= i < |t[1..]| ==> t[1..][i] == t[i + 1];
      assert input[pos + 1..] == t[1..];
      FindsNone(input, pos + 1);
    }
  }

  lemma {:induction false} FindsFirst(input: string, pos: nat, text: string, more: string)
    requires pos <= |input| && input[pos..] == text + CRLF + more && NoCrlf(text + "\r")
    ensures FindCrlf(input, pos) == Some(pos + |text|) && input[pos..pos + |text|] == text
    decreases |text|
  {
    var t := text + CRLF + more;
    assert input[pos] == t[0] && input[pos + 1] == t[1];
    if text != "" {
      var u := text + "\r";
      assert t[1] == u[1] && t[0] == u[0];
      assert forall i :: 0 <= i < |text| ==> (text[1..] + "\r")[i] == u[i + 1];
      assert input[pos + 1..] == input[pos..][1..] == text[1..] + CRLF + more;
      FindsFirst(input, pos + 1, text[1..], more);
      assert input[pos..pos + |text|] == t[..|text|];
    }
  }

  /** What does not go on as an array is none: nothing more, another mark than the dollar,
      a length line without an end, or one that is no number. */
  ghost predicate IsBroken(rest: string) {
    || rest == "" || rest[0] != '$' || NoCrlf(rest[1..])
    || exists text, more :: rest == "$" + (text + CRLF + more) && NoCrlf(text + "\r") && Stoi(text).None?
  }

  lemma BrokenEndsIt(input: string, pos: nat, count: int, acc: seq<string>)
    requires pos <= |input| && count > 0 && IsBroken(input[pos..])
    ensures ParseBulks(input, pos, count, acc) == []
  {
    hide ParseBulks, FindCrlf, Stoi, NoCrlf;
    var rest := input[pos..];
    ParseBulksFails(input, pos, count, acc);
    if rest != "" && rest[0] == '$' {
      assert input[pos] == '$' && input[pos + 1..] == rest[1..];
      if NoCrlf(rest[1..]) {
        FindsNone(input, pos + 1);
      } else {
        var text, more :| rest == "$" + (text + CRLF + more) && NoCrlf(text + "\r") && Stoi(text).None?;
        FindsFirst(input, pos + 1, text, more);
      }
    }
  }

  lemma BrokenArrayIsNone(n: nat, xs: seq<string>, rest: string)
    requires Sendable(xs) && |xs| < n <= INT32_MAX && IsBroken(rest)
    ensures ParseRequest(Begun(n, xs, rest)) == ParsePlainText(Begun(n, xs, rest))
  {
    hide ArrayHeader, Bulks, ParseBulks, ParseArray, ParsePlainText, SkipSpaces, IsBroken;
    BegunIsRead(n, xs, rest);
    BrokenEndsIt(Begun(n, xs, rest), |ArrayHeader(n)| + |Bulks(xs)|, n - |xs|, xs);
    HeaderIsRead(n, Bulks(xs) + rest);
  }

  lemma LengthLine(input: string, pos: nat, count: int, acc: seq<string>, text: string, more: string)
    requires pos <= |input| && count > 0 && input[pos..] == "$" + (text + CRLF + more) && NoCrlf(text + "\r")
    ensures var start := pos + 1 + |text| + 2;
            && start <= |input| && input[start..] == more
            && (Stoi(text).Some? && !PastEnd(start, Stoi(text).value, |input|) ==>
                  ParseBulks(input, pos, count, acc)
                  == ParseBulks(input, SkipCrlf(input, start + Stoi(text).value), count - 1,
                                acc + [Substr(input, start, Stoi(text).value)]))
            && (Stoi(text).Some? && PastEnd(start, Stoi(text).value, |input|) ==>
                  ParseBulks(input, pos, count, acc) == [])
  {
    hide ParseBulks, FindCrlf, Stoi, NoCrlf, PastEnd, SkipCrlf, Substr;
    var rest, start := input[pos..], pos + 1 + |text| + 2;
    assert input[pos] == rest[0] == '$' && input[pos + 1..] == rest[1..] == text + CRLF + more;
    assert input[start..] == rest[|text| + 3..] == more;
    FindsFirst(input, pos + 1, text, more);
    if Stoi(text).Some? {
      ParseBulksFails(input, pos, count, acc);
      if !PastEnd(start, Stoi(text).value, |input|) {
        ParseBulksStep(input, pos, count, acc, pos + 1 + |text|, Stoi(text).value);
      }
    }
  }

  /** A value that is announced longer than what has come makes it none, too; a last value
      of negative length is all that has come. */
  lemma LastLengthDecides(n: nat, xs: seq<string>, text: string, more: string)
    requires Sendable(xs) && |xs| < n <= INT32_MAX && NoCrlf(text + "\r") && Stoi(text).Some?
    ensures var input, len := Begun(n, xs, "$" + (text + CRLF + more)), Stoi(text).value;
            && (len > |more| ==> ParseRequest(input) == ParsePlainText(input))
            && (n == |xs| + 1 && 0 <= len <= |more| ==> ParseRequest(input) == xs + [more[..len]])
            && (n == |xs| + 1 && len < 0 && -len <= |input| - |more| ==> ParseRequest(input) == xs + [more])
  {
    hide ArrayHeader, Bulks, ParseBulks, ParseArray, ParsePlainText, SkipSpaces, SkipCrlf, Stoi, NoCrlf;
    var rest := "$" + (text + CRLF + more);
    var input, pos := Begun(n, xs, rest), |ArrayHeader(n)| + |Bulks(xs)|;
    BegunIsRead(n, xs, rest);
    HeaderIsRead(n, Bulks(xs) + rest);
    LengthLine(input, pos, n - |xs|, xs, text, more);
    var start, len := pos + 1 + |text| + 2, Stoi(text).value;
    if n == |xs| + 1 && !PastEnd(start, len, |input|) {
      ParseBulksEnds(input, SkipCrlf(input, start + len), 0, xs + [Substr(input, start, len)]);
      if len >= 0 { assert input[start..start + len] == input[start..][..len]; }
    }
  }

  // ---- plain text -----------------------------------------------------------

  /** No empty word and no line break inside a word. */
  predicate IsWord(t: string) {
    t != "" && '\r' !in t && '\n' !in t
  }

  lemma {:induction false} SplitGivesWords(input: string, tokens: seq<string>, current: string, quote: Option<char>)
    requires forall i :: 0 <= i < |tokens| ==> IsWord(tokens[i])
    requires current != "" ==> IsWord(current)
    ensures forall i :: 0 <= i < |SplitFrom(input, tokens, current, quote)| ==>
              IsWord(SplitFrom(input, tokens, current, quote)[i])
    decreases |input|
  {
    if input != "" {
      var c, rest := input[0], input[1..];
      if c == '\r' || c == '\n' {
        SplitGivesWords(rest, tokens, current, quote);
      } else if (c == '"' || c == '\'') && (quote.None? || c == quote.value) {
        SplitGivesWords(rest, tokens, current, if quote.None? then Some(c) else None);
      } else if IsSpace(c) && quote.None? {
        SplitGivesWords(rest, if current == "" then tokens else tokens + [current], "", quote);
      } else {
        SplitGivesWords(rest, tokens, current + [c], quote);
      }
    }
  }

  /** Plain text never yields an empty word or one with a line break in it. */
  lemma PlainTextGivesWords(input: string)
    ensures forall i :: 0 <= i < |ParsePlainText(input)| ==> IsWord(ParsePlainText(input)[i])
  {
    SplitGivesWords(input, [], "", None);
  }

  /** Ends with its only line break. */
  predicate IsLine(t: string) {
    t != "" && t[|t| - 1] == '\n' && '\n' !in t[..|t| - 1]
  }

  lemma {:induction false} BreakIsLast(s: string, pos: nat)
    requires IsLine(s)
    ensures FindCrlf(s, pos).Some? ==> FindCrlf(s, pos).value + 2 == |s|
    decreases |s| - pos
  {
    if pos + 2 <= |s| {
      if pos + 1 < |s| - 1 { assert s[pos + 1] == s[..|s| - 1][pos + 1]; }
      BreakIsLast(s, pos + 1);
    }
  }

  lemma {:induction false} RestIsLine(s: string)
    requires IsLine(s)
    ensures SkipSpaces(s) == "" || IsLine(SkipSpaces(s))
  {
    if IsSpace(s[0]) && |s| > 1 {
      assert s[1..][..|s| - 2] == s[..|s| - 1][1..];
      RestIsLine(s[1..]);
    } else if IsSpace(s[0]) {
      assert s[1..] == "";
    }
  }

  /** A request that is one line is never read as an array, whatever is in it. */
  lemma LineIsWords(line: string)
    requires IsLine(line)
    ensures var input := SkipSpaces(line);
            && (input == "" || input[0] != '*' || ParseArray(input) == [])
            && ParseRequest(line) == if input == "" then [] else ParsePlainText(input)
  {
    hide IsLine, SkipSpaces, FindCrlf, Stoi, ParsePlainText;
    RestIsLine(line);
    var input := SkipSpaces(line);
    if input != "" { BreakIsLast(input, 1); }
  }

  predicate Bare(t: string) {
    t != "" && forall i :: 0 <= i < |t| ==> !IsSpace(t[i]) && t[i] != '"' && t[i] != '\''
  }

  function Spaced(words: seq<string>): string {
    if words == [] then "\n"
    else if |words| == 1 then words[0] + "\n"
    else words[0] + " " + Spaced(words[1..])
  }

  lemma {:induction false} SplitBare(t: string, more: string, tokens: seq<string>, current: string)
    requires forall i :: 0 <= i < |t| ==> !IsSpace(t[i]) && t[i] != '"' && t[i] != '\''
    ensures SplitFrom(t + more, tokens, current, None) == SplitFrom(more, tokens, current + t, None)
    decreases |t|
  {
    if t == "" {
      assert t + more == more && current + t == current;
    } else {
      assert (t + more)[0] == t[0] && (t + more)[1..] == t[1..] + more;
      SplitBare(t[1..], more, tokens, current + [t[0]]);
      assert current + [t[0]] + t[1..] == current + t;
    }
  }

  lemma {:induction false} SplitSpaced(words: seq<string>, tokens: seq<string>)
    requires forall i :: 0 <= i < |words| ==> Bare(words[i])
    ensures SplitFrom(Spaced(words), tokens, "", None) == tokens + words
  {
    if |words| == 0 {
      assert "\n"[1..] == "";
    } else if |words| == 1 {
      SplitBare(words[0], "\n", tokens, "");
      assert "\n"[1..] == "" && "" + words[0] == words[0];
      assert tokens + [words[0]] == tokens + words;
    } else {
      var more := " " + Spaced(words[1..]);
      Assoc(words[0], " ", Spaced(words[1..]));
      SplitBare(words[0], more, tokens, "");
      assert more[0] == ' ' && more[1..] == Spaced(words[1..]);
      assert "" + words[0] == words[0];
      SplitSpaced(words[1..], tokens + [words[0]]);
      assert tokens + [words[0]] + words[1..] == tokens + words;
    }
  }

  lemma {:induction false} SpacedIsLine(words: seq<string>)
    requires forall i :: 0 <= i < |words| ==> Bare(words[i])
    ensures IsLine(Spaced(words))
  {
    if words != [] {
      assert '\n' !in words[0] by { assert Bare(words[0]); }
      if |words| > 1 {
        SpacedIsLine(words[1..]);
        assert Spaced(words)[..|Spaced(words)| - 1]
               == words[0] + " " + Spaced(words[1..])[..|Spaced(words[1..])| - 1];
      }
    }
  }

  /** A line of unquoted words, separated by blanks, is read as those words. */
  lemma PlainTextRoundTrip(words: seq<string>)
    requires forall i :: 0 <= i < |words| ==> Bare(words[i])
    ensures ParseRequest(Spaced(words)) == words
  {
    SpacedIsLine(words);
    LineIsWords(Spaced(words));
    if words == [] {
      assert "\n"[1..] == "";
      assert SkipSpaces("\n") == SkipSpaces("");
    } else {
      assert Spaced(words)[0] == words[0][0];
      SplitSpaced(words, []);
      assert [] + words == words;
    }
  }

  /** A word in quotes of one kind: anything may be inside but that quote and line breaks,
      blanks and the other quote included. */
  predicate Quotable(t: string, quote: char) {
    t != "" && forall i :: 0 <= i < |t| ==> t[i] != quote && t[i] != '\r' && t[i] != '\n'
  }

  function Quoted(words: seq<string>, quote: char): string {
    if words == [] then "\n"
    else [quote] + words[0] + [quote] + (if |words| == 1 then "\n" else " " + Quoted(words[1..], quote))
  }

  lemma {:induction false} SplitInside(t: string, quote: char, more: string, tokens: seq<string>, current: string)
    requires forall i :: 0 <= i < |t| ==> t[i] != quote && t[i] != '\r' && t[i] != '\n'
    ensures SplitFrom(t + more, tokens, current, Some(quote)) == SplitFrom(more, tokens, current + t, Some(quote))
    decreases |t|
  {
    if t == "" {
      assert t + more == more && current + t == current;
    } else {
      assert (t + more)[0] == t[0] && (t + more)[1..] == t[1..] + more;
      SplitInside(t[1..], quote, more, tokens, current + [t[0]]);
      assert current + [t[0]] + t[1..] == current + t;
    }
  }

  /** One quoted word, up to and with its closing quote. */
  lemma SplitOneQuoted(t: string, quote: char, more: string, tokens: seq<string>)
    requires (quote == '"' || quote == '\'') && Quotable(t, quote)
    ensures SplitFrom([quote] + t + [quote] + more, tokens, "", None) == SplitFrom(more, tokens, t, None)
  {
    var s := [quote] + t + [quote] + more;
    assert s[0] == quote && s[1..] == t + ([quote] + more);
    SplitInside(t, quote, [quote] + more, tokens, "");
    assert "" + t == t && ([quote] + more)[1..] == more;
  }

  lemma {:induction false} SplitQuoted(words: seq<string>, quote: char, tokens: seq<string>)
    requires (quote == '"' || quote == '\'') && forall i :: 0 <= i < |words| ==> Quotable(words[i], quote)
    ensures SplitFrom(Quoted(words, quote), tokens, "", None) == tokens + words
  {
    if |words| == 0 {
      assert "\n"[1..] == "";
    } else if |words| == 1 {
      SplitOneQuoted(words[0], quote, "\n", tokens);
      assert "\n"[1..] == "" && tokens + [words[0]] == tokens + words;
    } else {
      var more := " " + Quoted(words[1..], quote);
      SplitOneQuoted(words[0], quote, more, tokens);
      assert more[0] == ' ' && more[1..] == Quoted(words[1..], quote);
      SplitQuoted(words[1..], quote, tokens + [words[0]]);
      assert tokens + [words[0]] + words[1..] == tokens + words;
    }
  }

  /** A line of quoted words is read as what is between the quotes. */
  lemma QuotedRoundTrip(words: seq<string>, quote: char)
    requires (quote == '"' || quote == '\'') && forall i :: 0 <= i < |words| ==> Quotable(words[i], quote)
    ensures ParseRequest(Quoted(words, quote)) == words
  {
    if words == [] {
      assert "\n"[1..] == "";
      assert SkipSpaces("\n") == SkipSpaces("");
    } else {
      assert Quoted(words, quote)[0] == quote;
      SplitQuoted(words, quote, []);
      assert [] + words == words;
    }
  }

  /** Blanks and line breaks before a request do not matter. */
  lemma {:induction false} LeadingBlanks(blanks: string, s: string)
    requires AllSpaces(blanks)
    ensures ParseRequest(blanks + s) == ParseRequest(s)
  {
    BlanksAreSkipped(blanks, s);
    hide SkipSpaces, ParseArray, ParsePlainText;
  }

  lemma {:induction false} BlanksAreSkipped(blanks: string, s: string)
    requires AllSpaces(blanks)
    ensures SkipSpaces(blanks + s) == SkipSpaces(s)
  {
    if blanks == "" {
      assert blanks + s == s;
    } else {
      assert (blanks + s)[1..] == blanks[1..] + s;
      BlanksAreSkipped(blanks[1..], s);
    }
  }

  // ---- a parsed request is no larger than what was received ----------------------

  /** At most `count` tokens of at most `size` bytes each. */
  predicate AtMost(tokens: seq<string>, count: nat, size: nat) {
    |tokens| <= count && forall i :: 0 <= i < |tokens| ==> |tokens[i]| <= size
  }

  lemma {:induction false} BulksAtMost(input: string, pos: nat, count: int, tokens: seq<string>, most: nat)
    requires AtMost(tokens, most, |input|) && |tokens| + (if count > 0 then count else 0) <= most
    ensures AtMost(ParseBulks(input, pos, count, tokens), most, |input|)
    decreases count
  {
    hide FindCrlf, Stoi;
    if count > 0 && pos < |input| && input[pos] == '$' {
      var crlf := FindCrlf(input, pos + 1);
      if crlf.Some? {
        var len := Stoi(input[pos + 1..crlf.value]);
        var start := crlf.value + 2;
        if len.Some? && !PastEnd(start, len.value, |input|) {
          BulksAtMost(input, SkipCrlf(input, start + len.value), count - 1,
                      tokens + [Substr(input, start, len.value)], most);
        }
      }
    }
  }

  lemma {:induction false} SplitAtMost(input: string, tokens: seq<string>, current: string, quote: Option<char>,
                                       size: nat)
    requires |tokens| + |current| + |input| <= size && AtMost(tokens, size, size)
    ensures AtMost(SplitFrom(input, tokens, current, quote), size, size)
    decreases |input|
  {
    if input != "" {
      var c, rest := input[0], input[1..];
      if c == '\r' || c == '\n' {
        SplitAtMost(rest, tokens, current, quote, size);
      } else if (c == '"' || c == '\'') && (quote.None? || c == quote.value) {
        SplitAtMost(rest, tokens, current, if quote.None? then Some(c) else None, size);
      } else if IsSpace(c) && quote.None? {
        SplitAtMost(rest, if current == "" then tokens else tokens + [current], "", quote, size);
      } else {
        SplitAtMost(rest, tokens, current + [c], quote, size);
      }
    }
  }

  lemma {:induction false} SkipSpacesShrinks(s: string)
    ensures |SkipSpaces(s)| <= |s|
  {
    if s != "" && IsSpace(s[0]) { SkipSpacesShrinks(s[1..]); }
  }

  /** No token is longer than the request; in plain text there are no more tokens than
      bytes, in an array no more than its count, an int, says. */
  lemma ParsedAtMost(raw: string)
    ensures AtMost(ParseRequest(raw), if |raw| > INT32_MAX then |raw| else INT32_MAX, |raw|)
  {
    hide FindCrlf, Stoi, ParseBulks, SplitFrom;
    var input := SkipSpaces(raw);
    SkipSpacesShrinks(raw);
    SplitAtMost(input, [], "", None, |raw|);
    if input != "" && input[0] == '*' {
      var crlf := FindCrlf(input, 1);
      if crlf.Some? {
        var count := Stoi(input[1..crlf.value]);
        if count.Some? {
          BulksAtMost(input, crlf.value + 2, count.value, [], INT32_MAX);
        }
      }
    }
  }

  lemma ParsedInMemory(raw: string)
    requires |raw| <= MAX_SIZE
    ensures InMemory(ParseRequest(raw))
  {
    hide ParseRequest;
    ParsedAtMost(raw);
  }
}
