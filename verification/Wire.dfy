/** The bytes of a RESP2 array of bulk strings: what RespParser::serialize_array
    sends to a client and what AofManager::append writes to the log. */
module Wire {
  import opened Basics
  import opened Numerals

  const CRLF := "\r\n"

  function BulkHeader(n: nat): (s: string)
    ensures |s| == |Decimal(n)| + 3
  {
    "$" + Decimal(n) + CRLF
  }

  function Bulk(s: string): (r: string)
    ensures |r| == |BulkHeader(|s|)| + |s| + 2
  {
    BulkHeader(|s|) + s + CRLF
  }

  function Bulks(items: seq<string>): string {
    if items == [] then "" else Bulk(items[0]) + Bulks(items[1..])
  }

  function ArrayHeader(n: nat): string {
    "*" + Decimal(n) + CRLF
  }

  function Array(items: seq<string>): string {
    ArrayHeader(|items|) + Bulks(items)
  }

  /** A log: the records one after the other. */
  function Arrays(records: seq<seq<string>>): string {
    if records == [] then "" else Array(records[0]) + Arrays(records[1..])
  }

  lemma {:induction false} BulksConcat(a: seq<string>, b: seq<string>)
    ensures Bulks(a + b) == Bulks(a) + Bulks(b)
  {
    if a == [] {
      assert a + b == b;
    } else {
      assert (a + b)[0] == a[0] && (a + b)[1..] == a[1..] + b;
      BulksConcat(a[1..], b);
      Assoc(Bulk(a[0]), Bulks(a[1..]), Bulks(b));
    }
  }

  lemma BulksSnoc(a: seq<string>, x: string)
    ensures Bulks(a + [x]) == Bulks(a) + Bulk(x)
  {
    BulksConcat(a, [x]);
    assert [x][1..] == [];
    assert Bulks([x]) == Bulk(x) + "";
  }

  lemma Snoc<T>(s: seq<T>)
    requires s != []
    ensures s[..|s| - 1] + [s[|s| - 1]] == s
  {
  }

  lemma BulksLastLength(ts: seq<string>)
    requires ts != []
    ensures |Bulks(ts)| == |Bulks(ts[..|ts| - 1])| + |Bulk(ts[|ts| - 1])|
  {
    hide Bulk, Bulks;
    BulksSnoc(ts[..|ts| - 1], ts[|ts| - 1]);
    Snoc(ts);
  }

  lemma {:induction false} ArraysConcat(a: seq<seq<string>>, b: seq<seq<string>>)
    ensures Arrays(a + b) == Arrays(a) + Arrays(b)
  {
    if a == [] {
      assert a + b == b;
    } else {
      assert (a + b)[0] == a[0] && (a + b)[1..] == a[1..] + b;
      ArraysConcat(a[1..], b);
      Assoc(Array(a[0]), Arrays(a[1..]), Arrays(b));
    }
  }

  lemma ArraysSnoc(a: seq<seq<string>>, x: seq<string>)
    ensures Arrays(a + [x]) == Arrays(a) + Array(x)
  {
    ArraysConcat(a, [x]);
    assert [x][1..] == [];
    assert Arrays([x]) == Array(x) + "";
  }

  // ---- prefix-freeness ----------------------------------------------------

  /** The first CR ends the digits, so a decimal number followed by CRLF can be
      told from what comes after it. */
  lemma DigitsThenCrlf(a: string, b: string, r: string, t: string)
    requires AllDigits(a) && AllDigits(b)
    requires a + CRLF + r == b + CRLF + t
    ensures a == b && r == t
  {
    var left, right := a + CRLF + r, b + CRLF + t;
    assert left[|a|] == '\r' && right[|b|] == '\r';
    assert |a| == |b|;
    assert a == left[..|a|] && b == right[..|b|];
    assert r == left[|a| + 2..] && t == right[|b| + 2..];
  }

  lemma BulkPrefixFree(x: string, y: string, r: string, t: string)
    requires Bulk(x) + r == Bulk(y) + t
    ensures x == y && r == t
  {
    hide Decimal;
    BulkAfterMark(x, r);
    BulkAfterMark(y, t);
    DigitsThenCrlf(Decimal(|x|), Decimal(|y|), x + CRLF + r, y + CRLF + t);
    DecimalInjective(|x|, |y|);
    assert x == (x + CRLF + r)[..|x|] && y == (y + CRLF + t)[..|y|];
    assert r == (x + CRLF + r)[|x| + 2..] && t == (y + CRLF + t)[|y| + 2..];
  }

  /** What follows the first character of a header, its body and the rest. */
  lemma AfterMark(mark: string, d: string, e: string, body: string, rest: string)
    requires |mark| == 1
    ensures (mark + d + e + body + rest)[1..] == d + e + (body + rest)
  {
    Assoc(mark + d + e, body, rest);
    Assoc(mark, d, e);
    Assoc(mark, d + e, body + rest);
    DropMark(mark, d + e + (body + rest));
  }

  lemma DropMark(mark: string, s: string)
    requires |mark| == 1
    ensures (mark + s)[1..] == s
  {
  }

  lemma BulkAfterMark(x: string, r: string)
    ensures (Bulk(x) + r)[1..] == Decimal(|x|) + CRLF + (x + CRLF + r)
  {
    var d := Decimal(|x|);
    assert Bulk(x) == "$" + d + CRLF + x + CRLF;
    hide Bulk, Decimal;
    Assoc("$" + d + CRLF, x, CRLF);
    AfterMark("$", d, CRLF, x + CRLF, r);
  }

  lemma {:induction false} BulksPrefixFree(xs: seq<string>, ys: seq<string>, r: string, t: string)
    requires |xs| == |ys| && Bulks(xs) + r == Bulks(ys) + t
    ensures xs == ys && r == t
  {
    if xs == [] {
      assert Bulks(xs) + r == r && Bulks(ys) + t == t;
    } else {
      hide Bulk;
      Assoc(Bulk(xs[0]), Bulks(xs[1..]), r);
      Assoc(Bulk(ys[0]), Bulks(ys[1..]), t);
      BulkPrefixFree(xs[0], ys[0], Bulks(xs[1..]) + r, Bulks(ys[1..]) + t);
      BulksPrefixFree(xs[1..], ys[1..], r, t);
    }
  }

  /** No encoding is a proper prefix of another, and none is ambiguous: two
      encodings with tails agree only when both the lists and the tails do. */
  lemma ArrayPrefixFree(xs: seq<string>, ys: seq<string>, r: string, t: string)
    requires Array(xs) + r == Array(ys) + t
    ensures xs == ys && r == t
  {
    hide Decimal, Bulks;
    ArrayAfterMark(xs, r);
    ArrayAfterMark(ys, t);
    DigitsThenCrlf(Decimal(|xs|), Decimal(|ys|), Bulks(xs) + r, Bulks(ys) + t);
    DecimalInjective(|xs|, |ys|);
    BulksPrefixFree(xs, ys, r, t);
  }

  lemma ArrayAfterMark(xs: seq<string>, r: string)
    ensures (Array(xs) + r)[1..] == Decimal(|xs|) + CRLF + (Bulks(xs) + r)
  {
    var d := Decimal(|xs|);
    assert Array(xs) == "*" + d + CRLF + Bulks(xs);
    hide Array, Decimal, Bulks;
    AfterMark("*", d, CRLF, Bulks(xs), r);
  }
}
