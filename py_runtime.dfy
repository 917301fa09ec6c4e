/** The few pieces of Python runtime behaviour that both modelled source files
    rely on: raised exceptions, clamped slicing, str.split and ASCII digits. */
module PyRuntime {

  /** The exceptions the modelled code can raise and does not catch. */
  datatype Exception =
    | KeyError(key: string)    // d[k] on a dict without k
    | TypeError                // subscripting, slicing or iterating a value of the wrong type
    | IndexError               // xs[0] on an empty list or str
    | ValueError               // datetime.date.fromisoformat on an out-of-range date
    | URLError(url: string)    // a fetch or an upload that failed

  /** A Python computation: it returns a value or raises an exception. */
  datatype Result<+T> = Ok(value: T) | Raise(error: Exception) {
    predicate IsFailure() { Raise? }
    function PropagateFailure<U>(): Result<U> requires Raise? { Raise(error) }
    function Extract(): T requires Ok? { value }
  }

  datatype Option<+T> = None | Some(value: T)

  function Min(a: int, b: int): int { if a <= b then a else b }

  /** s[i:j] for non-negative i and j: Python clamps both bounds to len(s)
      and yields an empty sequence when they cross; it never raises. */
  function Slice<T>(s: seq<T>, i: nat, j: nat): (r: seq<T>)
    ensures |r| == if Min(j, |s|) <= Min(i, |s|) then 0 else Min(j, |s|) - Min(i, |s|)
    ensures forall k :: 0 <= k < |r| ==> r[k] == s[i + k]
    ensures i <= j ==> r == s[Min(i, |s|)..Min(j, |s|)]
  {
    var lo, hi := Min(i, |s|), Min(j, |s|);
    if lo < hi then s[lo..hi] else []
  }

  /** '0' to '9'. */
  predicate IsDigit(c: char) { '0' <= c <= '9' }

  predicate AllDigits(s: string) { forall k :: 0 <= k < |s| ==> IsDigit(s[k]) }

  predicate NoDigits(s: string) { forall k :: 0 <= k < |s| ==> !IsDigit(s[k]) }

  /** The decimal value of a string of ASCII digits. */
  function DigitsValue(s: string): (n: nat)
    requires AllDigits(s)
  {
    if s == [] then 0
    else DigitsValue(s[..|s| - 1]) * 10 + (s[|s| - 1] as int - '0' as int)
  }

  /** The ASCII digit for 0 <= d < 10. */
  function DigitChar(d: nat): (c: char)
    requires d < 10
    ensures IsDigit(c) && c as int - '0' as int == d
  {
    ('0' as int + d) as char
  }

  /** n written with exactly `width` digits, zero-padded on the left
      (Python's '%0{width}d' for n < 10^width). */
  function ZeroPadded(n: nat, width: nat): (s: string)
    ensures |s| == width && AllDigits(s)
  {
    if width == 0 then [] else ZeroPadded(n / 10, width - 1) + [DigitChar(n % 10)]
  }

  function Pow10(k: nat): (p: nat)
    ensures p >= 1
  {
    if k == 0 then 1 else 10 * Pow10(k - 1)
  }

  lemma ModTen(n: nat, p: nat)
    requires p >= 1
    ensures (n / 10) % p * 10 + n % 10 == n % (10 * p)
  {
    var q, d := n / 10, n % 10;
    var a, b := q / p, q % p;
    assert n == 10 * q + d;
    assert q == p * a + b;
    assert n == (10 * p) * a + (10 * b + d);
    assert 0 <= 10 * b + d < 10 * p;
    LemmaModUnique(n, 10 * p, a, 10 * b + d);
  }

  lemma LemmaModUnique(n: int, m: int, a: int, b: int)
    requires m > 0 && n == m * a + b && 0 <= b < m
    ensures n % m == b
  {
    var q, r := n / m, n % m;
    assert m * (a - q) == r - b;
    if a - q >= 1 {
      MulAtLeast(m, a - q);
    } else if q - a >= 1 {
      MulAtLeast(m, q - a);
    }
  }

  lemma MulAtLeast(m: int, k: int)
    requires m > 0 && k >= 1
    ensures m * k >= m
  {
    assert m * k == m + m * (k - 1);
  }

  /** Reading back a zero-padded rendering gives the number modulo 10^width. */
  lemma {:induction false} ZeroPaddedValue(n: nat, width: nat)
    ensures DigitsValue(ZeroPadded(n, width)) == n % Pow10(width)
  {
    if width > 0 {
      var s := ZeroPadded(n, width);
      assert s[..|s| - 1] == ZeroPadded(n / 10, width - 1);
      ZeroPaddedValue(n / 10, width - 1);
      ModTen(n, Pow10(width - 1));
    }
  }

  /** A number that fits in `width` digits reads back as itself. */
  lemma ZeroPaddedFits(n: nat, width: nat)
    requires n < Pow10(width)
    ensures DigitsValue(ZeroPadded(n, width)) == n
  {
    ZeroPaddedValue(n, width);
    LemmaModUnique(n, Pow10(width), 0, n);
  }

  /** s.split(sep): the pieces between occurrences of sep; there is always
      at least one piece. */
  function Split(s: string, sep: char): (r: seq<string>)
    ensures |r| >= 1
    ensures forall k :: 0 <= k < |r| ==> sep !in r[k]
    ensures Join(r, sep) == s
  {
    if s == [] then [[]]
    else
      var rest := Split(s[1..], sep);
      if s[0] == sep then
        [[]] + rest
      else
        var r := [[s[0]] + rest[0]] + rest[1..];
        assert r[1..] == rest[1..];
        assert s == [s[0]] + s[1..];
        r
  }

  /** sep.join(pieces). */
  function Join(pieces: seq<string>, sep: char): string
    requires |pieces| >= 1
  {
    if |pieces| == 1 then pieces[0] else pieces[0] + [sep] + Join(pieces[1..], sep)
  }

  /** Each line followed by sep: what a file of lines looks like. */
  function Terminated(lines: seq<string>, sep: char): string
  {
    if lines == [] then [] else lines[0] + [sep] + Terminated(lines[1..], sep)
  }

  lemma {:induction false} JoinTerminated(lines: seq<string>, tail: string, sep: char)
    ensures Join(lines + [tail], sep) == Terminated(lines, sep) + tail
  {
    if lines != [] {
      assert (lines + [tail])[1..] == lines[1..] + [tail];
      JoinTerminated(lines[1..], tail, sep);
    }
  }

  lemma {:induction false} SplitSingle(p: string, sep: char)
    requires sep !in p
    ensures Split(p, sep) == [p]
  {
    if p != [] {
      SplitSingle(p[1..], sep);
      assert p == [p[0]] + p[1..];
    }
  }

  lemma {:induction false} SplitFirst(p: string, rest: string, sep: char)
    requires sep !in p
    ensures Split(p + [sep] + rest, sep) == [p] + Split(rest, sep)
  {
    var s := p + [sep] + rest;
    if p == [] {
      assert s[1..] == rest;
    } else {
      assert s[1..] == p[1..] + [sep] + rest;
      SplitFirst(p[1..], rest, sep);
      assert p == [p[0]] + p[1..];
    }
  }

  /** Splitting undoes joining, when no piece holds the separator. */
  lemma {:induction false} SplitJoin(pieces: seq<string>, sep: char)
    requires |pieces| >= 1
    requires forall k :: 0 <= k < |pieces| ==> sep !in pieces[k]
    ensures Split(Join(pieces, sep), sep) == pieces
  {
    if |pieces| == 1 {
      SplitSingle(pieces[0], sep);
    } else {
      SplitJoin(pieces[1..], sep);
      SplitFirst(pieces[0], Join(pieces[1..], sep), sep);
    }
  }

  /** Splitting complete lines followed by an unterminated tail gives the
      lines and then the tail. */
  lemma SplitTerminated(lines: seq<string>, tail: string, sep: char)
    requires forall k :: 0 <= k < |lines| ==> sep !in lines[k]
    requires sep !in tail
    ensures Split(Terminated(lines, sep) + tail, sep) == lines + [tail]
  {
    JoinTerminated(lines, tail, sep);
    SplitJoin(lines + [tail], sep);
  }
}
