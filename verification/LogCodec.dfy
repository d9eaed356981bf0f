/** Reading the append-only log back: the stream primitives of std::ifstream, the
    loader's record decoder, its round trip with the writer, and what it does with
    a log that was cut at an arbitrary byte (src/AofManager.cpp). */
module LogCodec {
  import opened Basics
  import opened Numerals
  import opened Wire

  // ---- the input stream ---------------------------------------------------

  /** What is left to read, and whether the last operation left the stream good. */
  datatype Input = Input(rest: string, good: bool)

  datatype Line = Line(ok: bool, text: string, input: Input)

  datatype Block = Block(bytes: string, input: Input)

  function IndexOf(s: string, c: char): (i: nat)
    ensures i <= |s| && c !in s[..i] && (i < |s| ==> s[i] == c)
  {
    if s == "" || s[0] == c then 0 else
      var i := 1 + IndexOf(s[1..], c);
      assert s[..i] == [s[0]] + s[1..][..i - 1];
      i
  }

  /** std::getline: a last line without LF is delivered, but ends the stream. */
  function GetLine(input: Input): (l: Line)
    ensures |l.input.rest| <= |input.rest|
    ensures l.ok ==> |l.input.rest| < |input.rest|
  {
    if !input.good || input.rest == "" then
      Line(false, "", Input(input.rest, false))
    else
      var i := IndexOf(input.rest, '\n');
      if i == |input.rest| then Line(true, input.rest, Input("", false))
      else Line(true, input.rest[..i], Input(input.rest[i + 1..], true))
  }

  /** istream::read: a short read leaves the stream bad. */
  function Read(input: Input, n: nat): (b: Block)
    ensures |b.bytes| <= n && |b.input.rest| <= |input.rest|
  {
    if !input.good then Block("", input)
    else if n <= |input.rest| then Block(input.rest[..n], Input(input.rest[n..], true))
    else Block(input.rest, Input("", false))
  }

  function StripCr(line: string): string {
    if line != "" && line[|line| - 1] == '\r' then line[..|line| - 1] else line
  }

  // ---- the loader's decoder -----------------------------------------------

  /** What one round of the token loop does: read a token, leave the loop, or throw. */
  datatype Piece =
    | Token(text: string, input: Input)
    | Stop(input: Input)
    | Throw(input: Input)

  /** One token. A payload shorter than announced is padded with NULs, because the
      buffer was filled with them beforehand, and the two bytes after the payload
      are skipped unseen. */
  function ReadToken(input: Input): (p: Piece)
    ensures |p.input.rest| <= |input.rest|
  {
    var l := GetLine(input);
    if !l.ok then Stop(l.input) else
      var header := StripCr(l.text);
      if header == "" || header[0] != '$' then Stop(l.input) else
        var len := Stoul(header[1..]);
        if len.None? || len.value > MAX_SIZE then Throw(l.input) else
          var payload := Read(l.input, len.value);
          var crlf := Read(payload.input, 2);
          Token(payload.bytes + Zeros(len.value - |payload.bytes|), crlf.input)
  }

  /** How the token loop of one record ended. */
  datatype Tokens =
    | Collected(tokens: seq<string>, input: Input)
    | Threw(input: Input)

  /** The loop that reads `count` tokens. */
  function ReadTokens(input: Input, count: nat, tokens: seq<string>): (r: Tokens)
    ensures |r.input.rest| <= |input.rest|
    decreases count
  {
    if count == 0 then Collected(tokens, input) else
      match ReadToken(input)
      case Token(text, next) => ReadTokens(next, count - 1, tokens + [text])
      case Stop(next) => Collected(tokens, next)
      case Throw(next) => Threw(next)
  }

  /** The record that a line opens: None when the line opens none, the record is
      incomplete or an exception was caught, and where reading goes on. */
  function ReadRecord(l: Line): (r: (Option<seq<string>>, Input))
    ensures |r.1.rest| <= |l.input.rest|
  {
    var header := StripCr(l.text);
    if header == "" || header[0] != '*' then (None, l.input) else
      var count := Stoul(header[1..]);
      if count.None? || count.value > MAX_SIZE then (None, l.input) else
        match ReadTokens(l.input, count.value, [])
        case Threw(next) => (None, next)
        case Collected(tokens, next) =>
          (if |tokens| == count.value then Some(tokens) else None, next)
  }

  /** Every command the loader hands to its interpreter, in order. */
  function Decode(input: Input): seq<seq<string>>
    decreases |input.rest|
  {
    var l := GetLine(input);
    if !l.ok then [] else
      var (record, next) := ReadRecord(l);
      (if record.Some? then [record.value] else []) + Decode(next)
  }

  /** The commands in a log file. */
  function Records(log: string): seq<seq<string>> {
    Decode(Input(log, true))
  }

  /** What the log writer is ever given: a nonempty list of tokens. */
  predicate Writable(record: seq<string>) {
    record != [] && InMemory(record)
  }

  predicate AllWritable(records: seq<seq<string>>) {
    forall i :: 0 <= i < |records| ==> Writable(records[i])
  }

  // ---- round trip ---------------------------------------------------------

  lemma IndexOfFirst(a: string, c: char, b: string)
    requires c !in a
    ensures IndexOf(a + [c] + b, c) == |a|
  {
    var s := a + [c] + b;
    var i := IndexOf(s, c);
    assert s[|a|] == c;
    assert i <= |a|;
  }

  lemma GetLineWhole(a: string, b: string)
    requires '\n' !in a
    ensures GetLine(Input(a + CRLF + b, true)) == Line(true, a + "\r", Input(b, true))
  {
    assert a + CRLF + b == (a + "\r") + ['\n'] + b;
    IndexOfFirst(a + "\r", '\n', b);
    var s := a + CRLF + b;
    assert s[..|a| + 1] == a + "\r" && s[|a| + 2..] == b;
  }

  lemma GetLineLast(a: string)
    requires '\n' !in a && a != ""
    ensures GetLine(Input(a, true)) == Line(true, a, Input("", false))
  {
    assert IndexOf(a, '\n') == |a|;
  }

  lemma StripWhole(mark: char, digits: string)
    requires AllDigits(digits) && !IsDigit(mark) && mark != '\n' && mark != '\r'
    ensures '\n' !in [mark] + digits
    ensures StripCr([mark] + digits + "\r") == [mark] + digits
    ensures StripCr([mark] + digits) == [mark] + digits
    ensures ([mark] + digits)[1..] == digits
  {
    var s := [mark] + digits;
    assert (s + "\r")[..|s|] == s;
    assert forall i :: 0 < i < |s| ==> s[i] == digits[i - 1];
    assert |digits| > 0 ==> s[|s| - 1] == digits[|digits| - 1];
  }

  lemma ReadWhole(a: string, b: string)
    ensures Read(Input(a + b, true), |a|) == Block(a, Input(b, true))
  {
    assert (a + b)[..|a|] == a && (a + b)[|a|..] == b;
  }

  lemma BulkSplit(t: string, more: string)
    ensures Bulk(t) + more == "$" + Decimal(|t|) + CRLF + (t + (CRLF + more))
  {
    var header := "$" + Decimal(|t|) + CRLF;
    Assoc(header, t, CRLF);
    Assoc(header, t + CRLF, more);
    Assoc(t, CRLF, more);
  }

  lemma ReadTokenWhole(t: string, more: string)
    requires |t| <= MAX_SIZE
    ensures ReadToken(Input(Bulk(t) + more, true)) == Token(t, Input(more, true))
  {
    StripWhole('$', Decimal(|t|));
    BulkSplit(t, more);
    GetLineWhole("$" + Decimal(|t|), t + (CRLF + more));
    StoulOfDecimal(|t|);
    ReadWhole(t, CRLF + more);
    ReadWhole(CRLF, more);
    assert t + Zeros(0) == t;
  }

  lemma {:induction false} ReadTokensWhole(ts: seq<string>, rest: string, acc: seq<string>)
    requires InMemory(ts)
    ensures ReadTokens(Input(Bulks(ts) + rest, true), |ts|, acc) == Collected(acc + ts, Input(rest, true))
  {
    if ts == [] {
      assert acc + ts == acc;
      assert Bulks(ts) + rest == rest;
    } else {
      hide ReadToken, Bulk;
      var t, tail := ts[0], ts[1..];
      assert Bulks(ts) + rest == Bulk(t) + (Bulks(tail) + rest) by {
        Assoc(Bulk(t), Bulks(tail), rest);
      }
      ReadTokenWhole(t, Bulks(tail) + rest);
      ReadTokensWhole(tail, rest, acc + [t]);
      MoveFirst(acc, ts);
    }
  }

  /** One written record is read back as itself and consumed exactly. */
  lemma DecodeRecord(ts: seq<string>, rest: string)
    requires Writable(ts)
    ensures Decode(Input(Array(ts) + rest, true)) == [ts] + Decode(Input(rest, true))
  {
    var text := "*" + Decimal(|ts|);
    StripWhole('*', Decimal(|ts|));
    assert Array(ts) + rest == text + CRLF + (Bulks(ts) + rest);
    GetLineWhole(text, Bulks(ts) + rest);
    StoulOfDecimal(|ts|);
    ReadTokensWhole(ts, rest, []);
    assert [] + ts == ts;
  }

  /** Decoding the written records gives them back, in order, and leaves exactly
      what follows them to be decoded. */
  lemma {:induction false} RoundTrip(records: seq<seq<string>>, rest: string)
    requires AllWritable(records)
    ensures Decode(Input(Arrays(records) + rest, true)) == records + Decode(Input(rest, true))
  {
    hide Decode, Array;
    if records == [] {
      assert Arrays(records) + rest == rest;
    } else {
      var tail := Arrays(records[1..]) + rest;
      assert Arrays(records) + rest == Array(records[0]) + tail by {
        Assoc(Array(records[0]), Arrays(records[1..]), rest);
      }
      calc {
        Decode(Input(Array(records[0]) + tail, true));
        { DecodeRecord(records[0], tail); }
        [records[0]] + Decode(Input(tail, true));
        { RoundTrip(records[1..], rest); }
        [records[0]] + (records[1..] + Decode(Input(rest, true)));
        records + Decode(Input(rest, true));
      }
    }
  }

  lemma RecordsOfLog(records: seq<seq<string>>)
    requires AllWritable(records)
    ensures Records(Arrays(records)) == records
  {
    RoundTrip(records, "");
    assert Arrays(records) + "" == Arrays(records);
    assert Decode(Input("", true)) == [];
  }

  // ---- what else the loader accepts, and what it passes over ------------------------

  /** How a header line may end: std::getline takes it either way. */
  predicate IsEol(eol: string) {
    eol == "\n" || eol == "\r\n"
  }

  lemma GetLineEol(a: string, eol: string, b: string)
    requires IsEol(eol) && '\n' !in a && (a != "" ==> a[|a| - 1] != '\r')
    ensures var l := GetLine(Input(a + eol + b, true));
            l.ok && StripCr(l.text) == a && l.input == Input(b, true)
  {
    hide GetLine;
    if eol == "\n" {
      GetLineLf(a, b);
    } else {
      assert eol == CRLF;
      GetLineWhole(a, b);
      assert (a + "\r")[..|a|] == a;
    }
  }

  lemma GetLineLf(a: string, b: string)
    requires '\n' !in a
    ensures GetLine(Input(a + "\n" + b, true)) == Line(true, a, Input(b, true))
  {
    var s := a + "\n" + b;
    IndexOfFirst(a, '\n', b);
    assert s == a + ['\n'] + b && s[..|a|] == a && s[|a| + 1..] == b;
  }

  /** A blank line, one that does not begin with a star, or one whose number is no size. */
  predicate OpensNoRecord(line: string) {
    line == "" || line[0] != '*' || Stoul(line[1..]).None? || Stoul(line[1..]).value > MAX_SIZE
  }

  /** Such a line is passed over. */
  lemma OtherLinesArePassedOver(line: string, rest: string)
    requires '\n' !in line && OpensNoRecord(StripCr(line))
    ensures Decode(Input(line + "\n" + rest, true)) == Decode(Input(rest, true))
  {
    hide Stoul, GetLine;
    GetLineLf(line, rest);
  }

  /** A token whose header ends in LF or CRLF and whose payload is followed by any two
      bytes, which are skipped unseen. */
  function LooseBulk(t: string, eol: string, gap: string): string {
    "$" + Decimal(|t|) + eol + (t + gap)
  }

  function LooseBulks(ts: seq<string>, eol: string, gap: string): string {
    if ts == [] then "" else LooseBulk(ts[0], eol, gap) + LooseBulks(ts[1..], eol, gap)
  }

  lemma DigitsEndNoLine(mark: char, n: nat)
    requires mark == '$' || mark == '*'
    ensures var a := [mark] + Decimal(n); '\n' !in a && a != "" && a[|a| - 1] != '\r' && a[1..] == Decimal(n)
  {
    var a := [mark] + Decimal(n);
    assert IsDigit(Decimal(n)[|Decimal(n)| - 1]) && a[|a| - 1] == Decimal(n)[|Decimal(n)| - 1];
  }

  lemma ReadLooseToken(t: string, eol: string, gap: string, more: string)
    requires |t| <= MAX_SIZE && IsEol(eol) && |gap| == 2
    ensures ReadToken(Input(LooseBulk(t, eol, gap) + more, true)) == Token(t, Input(more, true))
  {
    hide Stoul, GetLine, StripCr, Read, IsEol, Decimal;
    var a := "$" + Decimal(|t|);
    DigitsEndNoLine('$', |t|);
    Assoc(a + eol, t + gap, more);
    Assoc(t, gap, more);
    GetLineEol(a, eol, t + (gap + more));
    StoulOfDecimal(|t|);
    ReadWhole(t, gap + more);
    ReadWhole(gap, more);
    assert t + Zeros(0) == t;
  }

  lemma {:induction false} ReadLooseTokens(ts: seq<string>, eol: string, gap: string, rest: string, acc: seq<string>)
    requires InMemory(ts) && IsEol(eol) && |gap| == 2
    ensures ReadTokens(Input(LooseBulks(ts, eol, gap) + rest, true), |ts|, acc)
            == Collected(acc + ts, Input(rest, true))
    decreases |ts|
  {
    hide ReadToken, LooseBulk, IsEol;
    if ts == [] {
      assert "" + rest == rest && acc + ts == acc;
    } else {
      Assoc(LooseBulk(ts[0], eol, gap), LooseBulks(ts[1..], eol, gap), rest);
      ReadLooseToken(ts[0], eol, gap, LooseBulks(ts[1..], eol, gap) + rest);
      ReadLooseTokens(ts[1..], eol, gap, rest, acc + [ts[0]]);
      assert acc + [ts[0]] + ts[1..] == acc + ts;
    }
  }

  /** A record in such a form is decoded like one of the writer's own. */
  lemma LooseRecordIsDecoded(ts: seq<string>, eol: string, gap: string, rest: string)
    requires Writable(ts) && IsEol(eol) && |gap| == 2
    ensures var record := "*" + Decimal(|ts|) + eol + LooseBulks(ts, eol, gap);
            Decode(Input(record + rest, true)) == [ts] + Decode(Input(rest, true))
  {
    hide Stoul, GetLine, StripCr, ReadTokens, LooseBulks, IsEol, Decimal;
    var a := "*" + Decimal(|ts|);
    DigitsEndNoLine('*', |ts|);
    Assoc(a + eol, LooseBulks(ts, eol, gap), rest);
    GetLineEol(a, eol, LooseBulks(ts, eol, gap) + rest);
    StoulOfDecimal(|ts|);
    ReadLooseTokens(ts, eol, gap, rest, []);
    assert [] + ts == ts;
  }

  // ---- a log cut at an arbitrary byte -------------------------------------

  /** What the loader makes of token `t` when only the first `c` bytes of its
      encoding are there (at least the dollar and one digit, but not all). */
  function TornToken(t: string, c: nat): string
    requires 2 <= c < |Bulk(t)|
  {
    var header := |BulkHeader(|t|)|;
    if c < header then
      Zeros(Value(Decimal(|t|)[..Min(c - 1, |Decimal(|t|)|)]))
    else
      var got := Min(c - header, |t|);
      t[..got] + Zeros(|t| - got)
  }

  /** Offset, inside the record, of the length line of its last token. */
  function LastTokenStart(ts: seq<string>): nat
    requires ts != []
  {
    |ArrayHeader(|ts|)| + |Bulks(ts[..|ts| - 1])|
  }

  /** The command the loader takes from the first `c` bytes of a record, if any. */
  function TornCommand(ts: seq<string>, c: nat): (r: seq<seq<string>>)
    requires ts != [] && c < |Array(ts)|
    ensures |r| <= 1
    ensures |r| == 1 <==> LastTokenStart(ts) + 2 <= c
    ensures |r| == 1 ==> |r[0]| == |ts| && r[0][..|ts| - 1] == ts[..|ts| - 1]
  {
    LastTokenEnds(ts);
    if LastTokenStart(ts) + 2 <= c
    then [ts[..|ts| - 1] + [TornToken(ts[|ts| - 1], c - LastTokenStart(ts))]]
    else []
  }

  lemma LastTokenEnds(ts: seq<string>)
    requires ts != []
    ensures |Array(ts)| == LastTokenStart(ts) + |Bulk(ts[|ts| - 1])|
  {
    BulksLastLength(ts);
  }

  /** A stream that went bad yields nothing more. */
  lemma BadStreamIsOver(input: Input, count: nat, acc: seq<string>)
    requires !input.good
    ensures Decode(input) == []
    ensures ReadTokens(input, count, acc) == Collected(acc, input)
  {
  }

  const BAD := Input("", false)

  /** A length line cut after the dollar and at least one digit. */
  lemma TornLengthLine(mark: char, n: nat, c: nat)
    requires !IsDigit(mark) && mark != '\n' && mark != '\r'
    requires 2 <= c < |Decimal(n)| + 3 && n < TWO_64
    ensures ([mark] + Decimal(n) + CRLF)[..c] != ""
    ensures GetLine(Input(([mark] + Decimal(n) + CRLF)[..c], true)).ok
    ensures GetLine(Input(([mark] + Decimal(n) + CRLF)[..c], true)).input == Input("", false)
    ensures StripCr(GetLine(Input(([mark] + Decimal(n) + CRLF)[..c], true)).text)
            == [mark] + Decimal(n)[..Min(c - 1, |Decimal(n)|)]
  {
    var d := Decimal(n);
    var k := Min(c - 1, |d|);
    var s := ([mark] + d + CRLF)[..c];
    StripWhole(mark, d[..k]);
    if c - 1 <= |d| {
      assert s == [mark] + d[..k];
    } else {
      assert s == [mark] + d[..k] + "\r";
    }
    assert '\n' !in s;
    GetLineLast(s);
  }

  /** One token cut in the middle: nothing, an exception, or a torn token. */
  function TornPiece(t: string, c: nat): Piece
    requires c < |Bulk(t)|
  {
    if c == 0 then Stop(BAD) else if c == 1 then Throw(BAD) else Token(TornToken(t, c), BAD)
  }

  lemma ReadTokenTorn(t: string, c: nat)
    requires |t| <= MAX_SIZE && c < |Bulk(t)|
    ensures ReadToken(Input(Bulk(t)[..c], true)) == TornPiece(t, c)
  {
    hide ReadToken, TornToken, Decimal;
    var header := BulkHeader(|t|);
    if c < 2 {
      ReadTokenTornStart(t, c);
    } else if c < |header| {
      Assoc(header, t, CRLF);
      PrefixOfPrefix(header, t + CRLF, c);
      ReadTokenTornHeader(t, c);
    } else {
      Assoc(header, t, CRLF);
      PrefixOfConcat(header, t + CRLF, c);
      ReadTokenTornPayload(t, c);
    }
  }

  lemma ReadTokenTornStart(t: string, c: nat)
    requires c < 2
    ensures ReadToken(Input(Bulk(t)[..c], true)) == if c == 0 then Stop(BAD) else Throw(BAD)
  {
    hide Decimal;
    if c == 1 {
      assert Bulk(t)[..1] == "$";
      GetLineLast("$");
    }
  }

  lemma ReadTokenTornHeader(t: string, c: nat)
    requires |t| <= MAX_SIZE && 2 <= c < |BulkHeader(|t|)|
    ensures ReadToken(Input(BulkHeader(|t|)[..c], true)) == Token(TornToken(t, c), BAD)
  {
    hide Decimal, Stoul, Value, GetLine, StripCr;
    var d := Decimal(|t|);
    var k := Min(c - 1, |d|);
    assert BulkHeader(|t|) == ['$'] + d + CRLF;
    TornLengthLine('$', |t|, c);
    StoulOfDecimalPrefix(|t|, k);
    assert (['$'] + d[..k])[1..] == d[..k];
    assert "" + Zeros(Value(d[..k])) == TornToken(t, c);
  }

  lemma ReadTokenTornPayload(t: string, c: nat)
    requires |t| <= MAX_SIZE && |BulkHeader(|t|)| <= c < |Bulk(t)|
    ensures ReadToken(Input(BulkHeader(|t|) + (t + CRLF)[..c - |BulkHeader(|t|)|], true))
            == Token(TornToken(t, c), BAD)
  {
    hide Decimal, Stoul, GetLine, StripCr, Read, Bulk;
    var d := Decimal(|t|);
    var j := c - |BulkHeader(|t|)|;
    StripWhole('$', d);
    GetLineWhole("$" + d, (t + CRLF)[..j]);
    StoulOfDecimal(|t|);
    TornPayload(t, j);
  }

  lemma PrefixOfConcat<T>(a: seq<T>, b: seq<T>, c: nat)
    requires |a| <= c <= |a| + |b|
    ensures (a + b)[..c] == a + b[..c - |a|]
  {
  }

  lemma TornPayload(t: string, j: nat)
    requires j < |t| + 2
    ensures var p := Read(Input((t + CRLF)[..j], true), |t|);
            p.bytes + Zeros(|t| - |p.bytes|) == t[..Min(j, |t|)] + Zeros(|t| - Min(j, |t|))
            && Read(p.input, 2).input == Input("", false)
  {
    var body := (t + CRLF)[..j];
    if j < |t| {
      assert body == t[..j];
    } else {
      assert body == t + CRLF[..j - |t|];
      ReadWhole(t, CRLF[..j - |t|]);
      assert t[..|t|] == t;
    }
  }

  lemma PrefixOfPrefix<T>(a: seq<T>, b: seq<T>, c: nat)
    requires c <= |a|
    ensures (a + b)[..c] == a[..c]
  {
  }

  lemma BulksHeadLength(ts: seq<string>)
    requires ts != []
    ensures |Bulks(ts)| == |Bulk(ts[0])| + |Bulks(ts[1..])|
  {
  }

  /** What the token loop makes of the first `c` bytes of the tokens `ts`: it gets
      them all, the last one torn, or it falls short of their number. */
  ghost predicate TornOutcome(ts: seq<string>, c: nat, acc: seq<string>, r: Tokens)
    requires ts != [] && c < |Bulks(ts)|
  {
    var n := |ts| - 1;
    var last := |Bulks(ts[..n])|;
    BulksLastLength(ts);
    && r.input == BAD
    && (last + 2 <= c ==> r == Collected(acc + ts[..n] + [TornToken(ts[n], c - last)], BAD))
    && (c < last + 2 ==> r.Threw? || |r.tokens| < |acc| + |ts|)
  }

  lemma {:induction false} ReadTokensTorn(ts: seq<string>, c: nat, acc: seq<string>)
    requires Writable(ts) && c < |Bulks(ts)|
    ensures TornOutcome(ts, c, acc, ReadTokens(Input(Bulks(ts)[..c], true), |ts|, acc))
  {
    hide ReadToken, Bulk;
    if c < |Bulk(ts[0])| {
      PrefixOfPrefix(Bulk(ts[0]), Bulks(ts[1..]), c);
      ReadTokenTorn(ts[0], c);
      if c >= 2 {
        BadStreamIsOver(BAD, |ts| - 1, acc + [TornToken(ts[0], c)]);
      }
      FirstTokenTorn(ts, c, acc);
    } else {
      PrefixOfConcat(Bulk(ts[0]), Bulks(ts[1..]), c);
      ReadTokenWhole(ts[0], Bulks(ts[1..])[..c - |Bulk(ts[0])|]);
      assert |Bulks(ts)| == |Bulk(ts[0])| + |Bulks(ts[1..])|;
      var r := ReadTokens(Input(Bulks(ts)[..c], true), |ts|, acc);
      assert r == ReadTokens(Input(Bulks(ts[1..])[..c - |Bulk(ts[0])|], true), |ts| - 1, acc + [ts[0]]);
      ReadTokensTorn(ts[1..], c - |Bulk(ts[0])|, acc + [ts[0]]);
      LaterTokenTorn(ts, c, acc, r);
    }
  }

  lemma FirstTokenTorn(ts: seq<string>, c: nat, acc: seq<string>)
    requires ts != [] && c < |Bulk(ts[0])|
    ensures c < |Bulks(ts)|
    ensures c == 0 ==> TornOutcome(ts, c, acc, Collected(acc, BAD))
    ensures c == 1 ==> TornOutcome(ts, c, acc, Threw(BAD))
    ensures c >= 2 ==> TornOutcome(ts, c, acc, Collected(acc + [TornToken(ts[0], c)], BAD))
  {
    hide Bulk, TornToken;
    BulksLastLength(ts);
    if |ts| == 1 {
      assert acc + ts[..0] == acc;
    } else {
      BulksHeadLength(ts[..|ts| - 1]);
    }
  }

  lemma LaterTokenTorn(ts: seq<string>, c: nat, acc: seq<string>, r: Tokens)
    requires |ts| > 1 && |Bulk(ts[0])| <= c < |Bulks(ts)|
    requires |Bulks(ts)| == |Bulk(ts[0])| + |Bulks(ts[1..])|
    requires TornOutcome(ts[1..], c - |Bulk(ts[0])|, acc + [ts[0]], r)
    ensures TornOutcome(ts, c, acc, r)
  {
    hide Bulk, Bulks, TornToken;
    var n := |ts| - 1;
    BulksLastLength(ts);
    BulksLastLength(ts[1..]);
    BulksHeadLength(ts[..n]);
    assert ts[..n][1..] == ts[1..][..n - 1];
    assert acc + ts[..n] == acc + [ts[0]] + ts[1..][..n - 1];
  }

  /** A record cut after `c` of its bytes decodes to at most one command. */
  lemma DecodeTornRecord(ts: seq<string>, c: nat)
    requires Writable(ts) && c < |Array(ts)|
    ensures Decode(Input(Array(ts)[..c], true)) == TornCommand(ts, c)
  {
    hide Decode, Decimal, Bulks, Bulk, TornToken;
    var header := ArrayHeader(|ts|);
    if c < 2 {
      DecodeTornStart(ts, c);
    } else if c < |header| {
      PrefixOfPrefix(header, Bulks(ts), c);
      DecodeTornHeader(ts, c);
    } else {
      PrefixOfConcat(header, Bulks(ts), c);
      DecodeTornTokens(ts, c);
    }
  }

  lemma DecodeTornStart(ts: seq<string>, c: nat)
    requires c < 2
    ensures Decode(Input(Array(ts)[..c], true)) == []
  {
    hide Decimal, Bulks;
    if c == 1 {
      assert Array(ts)[..1] == "*";
      GetLineLast("*");
      BadStreamIsOver(BAD, 0, []);
    }
  }

  lemma DecodeTornHeader(ts: seq<string>, c: nat)
    requires Writable(ts) && 2 <= c < |ArrayHeader(|ts|)|
    ensures Decode(Input(ArrayHeader(|ts|)[..c], true)) == []
  {
    var d := Decimal(|ts|);
    var k := Min(c - 1, |d|);
    assert ArrayHeader(|ts|) == ['*'] + d + CRLF;
    TornLengthLine('*', |ts|, c);
    StoulOfDecimalPrefix(|ts|, k);
    assert (['*'] + d[..k])[1..] == d[..k];
    BadStreamIsOver(BAD, Value(d[..k]), []);
  }

  lemma DecodeTornTokens(ts: seq<string>, c: nat)
    requires Writable(ts) && |ArrayHeader(|ts|)| <= c < |Array(ts)|
    ensures Decode(Input(ArrayHeader(|ts|) + Bulks(ts)[..c - |ArrayHeader(|ts|)|], true)) == TornCommand(ts, c)
  {
    hide ReadTokens, Bulk, Bulks, TornToken, Decimal, Stoul, GetLine, StripCr;
    var d := Decimal(|ts|);
    var body := Bulks(ts)[..c - |ArrayHeader(|ts|)|];
    StripWhole('*', d);
    StoulOfDecimal(|ts|);
    GetLineWhole("*" + d, body);
    ReadTokensTorn(ts, |body|, []);
    BadStreamIsOver(BAD, 0, []);
    LastTokenEnds(ts);
    var r := ReadTokens(Input(body, true), |ts|, []);
    var l := Line(true, "*" + d + "\r", Input(body, true));
    assert ReadRecord(l) == (if r.Collected? && |r.tokens| == |ts| then Some(r.tokens) else None, BAD);
    assert [] + ts[..|ts| - 1] == ts[..|ts| - 1];
  }

  /** How many of the records end at or before byte `cut` of the log. */
  function WholeRecords(records: seq<seq<string>>, cut: nat): (k: nat)
    ensures k <= |records| && |Arrays(records[..k])| <= cut
    ensures k < |records| ==> cut < |Arrays(records[..k])| + |Array(records[k])|
  {
    if records == [] || cut < |Array(records[0])| then
      0
    else
      var k := 1 + WholeRecords(records[1..], cut - |Array(records[0])|);
      assert records[..k][1..] == records[1..][..k - 1];
      k
  }

  /** The one further command a cut log may yield after its whole records. */
  function TornTail(records: seq<seq<string>>, cut: nat): (r: seq<seq<string>>)
    requires AllWritable(records)
    ensures |r| <= 1
  {
    var k := WholeRecords(records, cut);
    if k == |records| then [] else TornCommand(records[k], cut - |Arrays(records[..k])|)
  }

  /** Crash safety of the log: whatever byte it is cut at, every record wholly
      before the cut is replayed unchanged and in order, then at most one more
      command, and exactly when the cut lies inside the last token of a record,
      past its dollar and first digit. */
  lemma CrashCut(records: seq<seq<string>>, cut: nat)
    requires AllWritable(records) && cut <= |Arrays(records)|
    ensures var k := WholeRecords(records, cut);
            && Records(Arrays(records)[..cut]) == records[..k] + TornTail(records, cut)
            && (TornTail(records, cut) != [] <==>
                  k < |records| && |Arrays(records[..k])| + LastTokenStart(records[k]) + 2 <= cut)
  {
    hide Decode, Array, Arrays, TornCommand, LastTokenStart, Writable;
    var k := WholeRecords(records, cut);
    SplitAtCut(records, cut);
    if k == |records| {
      assert records[..k] == records;
      RecordsOfLog(records);
    } else {
      var c := cut - |Arrays(records[..k])|;
      RoundTrip(records[..k], Array(records[k])[..c]);
      DecodeTornRecord(records[k], c);
    }
  }

  lemma SplitAtCut(records: seq<seq<string>>, cut: nat)
    requires cut <= |Arrays(records)|
    ensures var k := WholeRecords(records, cut);
            && (k == |records| ==> Arrays(records)[..cut] == Arrays(records))
            && (k < |records| ==> Arrays(records)[..cut]
                                  == Arrays(records[..k]) + Array(records[k])[..cut - |Arrays(records[..k])|])
  {
    hide Array;
    var k := WholeRecords(records, cut);
    ArraysConcat(records[..k], records[k..]);
    assert records == records[..k] + records[k..];
    if k < |records| {
      PrefixOfConcat(Arrays(records[..k]), Arrays(records[k..]), cut);
      assert records[k..][0] == records[k];
      PrefixOfPrefix(Array(records[k]), Arrays(records[k..][1..]), cut - |Arrays(records[..k])|);
    } else {
      assert records[..k] == records;
    }
  }

  // ---- when the further command is the one that was written ---------------------------

  /** The loader makes the written token of the first `c` bytes of its encoding: the
      whole length was there, and what is missing of the payload was NULs. */
  predicate TokenSurvives(t: string, c: nat) {
    && 1 + |Decimal(|t|)| <= c
    && forall i :: c - |BulkHeader(|t|)| <= i < |t| && 0 <= i ==> t[i] == '\0'
  }

  /** A proper prefix of a decimal number denotes a smaller one. */
  lemma {:induction false} PrefixIsSmaller(s: string, k: nat)
    requires AllDigits(s) && 0 < k < |s| && s[0] != '0'
    ensures Value(s[..k]) < Value(s)
    decreases |s|
  {
    var most := s[..|s| - 1];
    ValuePositive(most);
    if k < |s| - 1 {
      PrefixIsSmaller(most, k);
      assert most[..k] == s[..k];
    }
  }

  lemma TornTokenIff(t: string, c: nat)
    requires 2 <= c < |Bulk(t)|
    ensures TornToken(t, c) == t <==> TokenSurvives(t, c)
  {
    hide Value, Bulk;
    var d, header := Decimal(|t|), |BulkHeader(|t|)|;
    assert header == |d| + 3;
    if c < header {
      TornHeaderIff(t, c);
    } else {
      var got := Min(c - header, |t|);
      assert t == t[..got] + t[got..];
      ZerosIff(t[got..]);
      SamePrefix(t[..got], Zeros(|t| - got), t[got..]);
      assert forall i :: got <= i < |t| ==> t[i] == t[got..][i - got];
      assert TornToken(t, c) == t[..got] + Zeros(|t| - got);
    }
  }

  lemma TornHeaderIff(t: string, c: nat)
    requires 2 <= c < |BulkHeader(|t|)|
    ensures TornToken(t, c) == t <==> TokenSurvives(t, c)
  {
    hide Value, BulkHeader;
    var d := Decimal(|t|);
    var k := Min(c - 1, |d|);
    assert TornToken(t, c) == Zeros(Value(d[..k]));
    ValueOfDecimal(|t|);
    if k < |d| {
      assert |t| > 0 by { ZeroHasOneDigit(); }
      PrefixIsSmaller(d, k);
    } else {
      assert d[..k] == d;
      ZerosIff(t);
    }
  }

  lemma ZeroHasOneDigit()
    ensures |Decimal(0)| == 1
  {
  }

  lemma ZerosIff(t: string)
    ensures t == Zeros(|t|) <==> forall i :: 0 <= i < |t| ==> t[i] == '\0'
  {
  }

  lemma SamePrefix(a: string, b: string, c: string)
    ensures a + b == a + c <==> b == c
  {
    assert (a + b)[|a|..] == b && (a + c)[|a|..] == c;
  }

  /** The cut leaves whole records, or a last token that survives it. */
  predicate CutIsHarmless(records: seq<seq<string>>, cut: nat)
    requires AllWritable(records)
  {
    var k := WholeRecords(records, cut);
    k == |records| ||
    var ts, c := records[k], cut - |Arrays(records[..k])|;
    var last := LastTokenStart(ts);
    c < last + 2 || TokenSurvives(ts[|ts| - 1], c - last)
  }

  /** A cut log replays nothing but commands that were written, in order, if and only
      if the cut is harmless. */
  lemma CutReplaysOnlyWrittenIff(records: seq<seq<string>>, cut: nat)
    requires AllWritable(records) && cut <= |Arrays(records)|
    ensures Records(Arrays(records)[..cut]) <= records <==> CutIsHarmless(records, cut)
  {
    hide Records, Array, Arrays, TokenSurvives, TornToken;
    var k := WholeRecords(records, cut);
    CrashCut(records, cut);
    if k < |records| {
      var ts, c := records[k], cut - |Arrays(records[..k])|;
      var n, last := |ts| - 1, LastTokenStart(ts);
      assert ts == ts[..n] + [ts[n]];
      if last + 2 <= c {
        LastTokenEnds(ts);
        TornTokenIff(ts[n], c - last);
        var torn := ts[..n] + [TornToken(ts[n], c - last)];
        assert TornTail(records, cut) == [torn];
        assert torn[n] == TornToken(ts[n], c - last);
        PrefixWithOne(records, k, torn);
      }
    }
  }

  lemma PrefixWithOne<T>(s: seq<T>, k: nat, x: T)
    requires k < |s|
    ensures s[..k] + [x] <= s <==> x == s[k]
  {
    assert (s[..k] + [x])[k] == x;
  }

  /** The further command can be a corrupted one: a log whose only record sets
      `a` to `10`, cut inside the payload, replays as setting it to `1` and NUL. */
  lemma TornCommandCanBeCorrupt()
    ensures var log := Array(["SET", "a", "10"]);
            Records(log[..|log| - 3]) == [["SET", "a", "1\0"]] && !TokenSurvives("10", 5)
  {
    TenIsTorn();
    hide Decode, TornToken, BulkHeader, Array, Bulks, Decimal;
    var ts := ["SET", "a", "10"];
    LastTokenEnds(ts);
    assert |Bulk("10")| == 8 by {
      SizeOfTen();
    }
    DecodeTornRecord(ts, |Array(ts)| - 3);
    TornTen();
    assert ts[..2] + ["1\0"] == ["SET", "a", "1\0"];
  }

  lemma SizeOfTen()
    ensures |BulkHeader(2)| == 4 && |Bulk("10")| == 8
  {
    assert |Decimal(2)| == 1;
  }

  lemma TornTen()
    ensures |Bulk("10")| == 8 && TornToken("10", 5) == "1\0"
  {
    SizeOfTen();
    hide BulkHeader, Bulk;
    assert "10"[..1] + Zeros(1) == "1\0";
  }

  lemma TenIsTorn()
    ensures !TokenSurvives("10", 5)
  {
    SizeOfTen();
    assert "10"[1] != '\0';
  }
}
