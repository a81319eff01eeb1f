/** Types and sequence helpers shared by the models of the kernel and of its user programs. */
module Base {

  datatype Option<+T> = None | Some(value: T)

  /** An unsigned 8-bit value, as the source's `uint8_t`. */
  type byte = b: int | 0 <= b < 256

  const TWO_16: int := 0x1_0000
  const TWO_32: int := 0x1_0000_0000

  const TERMINALS: int := 3

  const NEWLINE: byte := 10
  const SPACE: byte := 32

  function Min(a: int, b: int): int {
    if a < b then a else b
  }

  /** Concatenation of a sequence of sequences. */
  function Flatten<T>(ss: seq<seq<T>>): seq<T> {
    if ss == [] then [] else Flatten(ss[..|ss| - 1]) + ss[|ss| - 1]
  }

  lemma FlattenSnoc<T>(ss: seq<seq<T>>, last: seq<T>)
    ensures Flatten(ss + [last]) == Flatten(ss) + last
  {
    assert (ss + [last])[..|ss|] == ss;
  }

  /** The first index from `i` on that holds one of `stops`, or the length. */
  function Span(s: seq<byte>, stops: set<byte>, i: nat): (j: nat)
    requires i <= |s|
    ensures i <= j <= |s|
    decreases |s| - i
  {
    if i == |s| || s[i] in stops then i else Span(s, stops, i + 1)
  }

  lemma {:induction false} SpanMeans(s: seq<byte>, stops: set<byte>, i: nat)
    requires i <= |s|
    ensures forall k :: i <= k < Span(s, stops, i) ==> s[k] !in stops
    ensures Span(s, stops, i) < |s| ==> s[Span(s, stops, i)] in stops
    decreases |s| - i
  {
    if i < |s| && s[i] !in stops {
      SpanMeans(s, stops, i + 1);
    }
  }

  /** It is the only index with these properties. */
  lemma {:induction false} SpanUnique(s: seq<byte>, stops: set<byte>, i: nat, j: nat)
    requires i <= j <= |s| && (j < |s| ==> s[j] in stops)
    requires forall k :: i <= k < j ==> s[k] !in stops
    ensures Span(s, stops, i) == j
    decreases |s| - i
  {
    if i < j {
      SpanUnique(s, stops, i + 1, j);
    }
  }

  /** Length of the C string stored at the front of a memory region: the index
      of the first NUL, or the whole region when it holds none. */
  function CLen(s: seq<byte>): (n: nat)
    ensures n <= |s|
    ensures forall i :: 0 <= i < n ==> s[i] != 0
    ensures n < |s| ==> s[n] == 0
  {
    SpanMeans(s, {0}, 0);
    Span(s, {0}, 0)
  }

  function CStr(s: seq<byte>): seq<byte> {
    s[..CLen(s)]
  }

  /** `CLen` is the only index with the properties of its contract. */
  lemma CLenUnique(s: seq<byte>, n: nat)
    requires n <= |s|
    requires forall i :: 0 <= i < n ==> s[i] != 0
    requires n < |s| ==> s[n] == 0
    ensures CLen(s) == n
  {
    SpanUnique(s, {0}, 0, n);
  }

  lemma TimesAtLeast(d: int, m: int)
    requires d >= 1 && m > 0
    ensures d * m >= m
  {
    assert d * m == (d - 1) * m + m;
  }

  lemma SmallMultiple(d: int, m: int, x: int)
    requires m > 0 && d * m == x && -m < x < m
    ensures d == 0
  {
    if d >= 1 {
      TimesAtLeast(d, m);
    } else if d <= -1 {
      TimesAtLeast(-d, m);
    }
  }

  /** Quotient and remainder are unique. */
  lemma DivModUnique(n: nat, m: nat, q: nat, r: nat)
    requires m > 0 && n == q * m + r && r < m
    ensures n / m == q && n % m == r
  {
    assert n == (n / m) * m + n % m;
    assert (q - n / m) * m == q * m - (n / m) * m;
    SmallMultiple(q - n / m, m, n % m - r);
  }
}
