/** Vocabulary shared by every module: optional values, the machine integer
    ranges, and the two ends of a string that the stream code looks at. */
module Basics {

  datatype Option<+T> = None | Some(value: T)

  const INT32_MIN := -0x8000_0000
  const INT32_MAX := 0x7fff_ffff
  const INT64_MIN := -0x8000_0000_0000_0000
  const INT64_MAX := 0x7fff_ffff_ffff_ffff
  const TWO_64 := 0x1_0000_0000_0000_0000

  /** The largest size a C++ container can have (PTRDIFF_MAX). */
  const MAX_SIZE := 0x7fff_ffff_ffff_ffff

  predicate IsInt64(i: int) {
    INT64_MIN <= i <= INT64_MAX
  }

  /** Two's complement wrap-around to std::int64_t. */
  function Wrap64(i: int): (r: int)
    ensures IsInt64(r)
    ensures IsInt64(i) ==> r == i
  {
    (i - INT64_MIN) % TWO_64 + INT64_MIN
  }

  /** A token list that fits in memory: no vector or string above MAX_SIZE. */
  predicate InMemory(tokens: seq<string>) {
    |tokens| <= MAX_SIZE && forall i :: 0 <= i < |tokens| ==> |tokens[i]| <= MAX_SIZE
  }

  function Min(a: int, b: int): int {
    if a <= b then a else b
  }

  /** std::isspace in the "C" locale. */
  predicate IsSpace(c: char) {
    c == ' ' || '\t' <= c <= '\r'
  }

  lemma Assoc<T>(a: seq<T>, b: seq<T>, c: seq<T>)
    ensures a + b + c == a + (b + c)
  {
  }

  lemma MoveFirst<T>(a: seq<T>, b: seq<T>)
    requires b != []
    ensures a + [b[0]] + b[1..] == a + b
  {
  }

  lemma Subset<T>(a: set<T>, b: set<T>)
    requires a <= b
    ensures |a| <= |b|
  {
    assert b == a + (b - a);
    assert |b| == |a| + |b - a|;
  }

  function Zeros(n: nat): (s: string)
    ensures |s| == n
  {
    seq(n, _ => '\0')
  }
}
