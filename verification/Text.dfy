/** Strings as the services write and compare them: decimal numerals and the byte order
    that `cmp.Compare` and Python's tuple comparison use on text. */
module Text {

  datatype Option<+T> = None | Some(value: T)

  function Digit(d: nat): (c: char)
    requires d < 10
    ensures '0' <= c <= '9' && c as int - '0' as int == d
  {
    ('0' as int + d) as char
  }

  predicate IsDigit(c: char) {
    '0' <= c <= '9'
  }

  /** The numeral `strconv.FormatInt`, `%d` and Python's f-strings print for a count or a row id. */
  function Decimal(n: nat): string {
    if n < 10 then [Digit(n)] else Decimal(n / 10) + [Digit(n % 10)]
  }

  lemma {:induction false} DecimalDigits(n: nat)
    ensures |Decimal(n)| > 0 && forall i :: 0 <= i < |Decimal(n)| ==> IsDigit(Decimal(n)[i])
  {
    if n >= 10 { DecimalDigits(n / 10); }
  }

  lemma {:induction false} DecimalInjective(a: nat, b: nat)
    requires Decimal(a) == Decimal(b)
    ensures a == b
    decreases a
  {
    var s, t := Decimal(a), Decimal(b);
    DecimalDigits(a / 10);
    DecimalDigits(b / 10);
    assert s[|s| - 1] == Digit(a % 10) && t[|t| - 1] == Digit(b % 10);
    if a >= 10 && b >= 10 {
      assert s[..|s| - 1] == Decimal(a / 10) && t[..|t| - 1] == Decimal(b / 10);
      DecimalInjective(a / 10, b / 10);
    }
  }

  /** Byte-wise (for valid text: code point) lexicographic order. */
  predicate LexLess(a: string, b: string) {
    |b| > 0 && (|a| == 0 || a[0] < b[0] || (a[0] == b[0] && LexLess(a[1..], b[1..])))
  }

  lemma {:induction false} LexTotal(a: string, b: string)
    ensures a == b || LexLess(a, b) || LexLess(b, a)
  {
    if |a| > 0 && |b| > 0 && a[0] == b[0] {
      LexTotal(a[1..], b[1..]);
      assert a == [a[0]] + a[1..] && b == [b[0]] + b[1..];
    }
  }

  lemma {:induction false} LexAsymmetric(a: string, b: string)
    requires LexLess(a, b)
    ensures !LexLess(b, a) && a != b
  {
    if |a| > 0 && a[0] == b[0] {
      LexAsymmetric(a[1..], b[1..]);
    }
  }

  lemma {:induction false} LexTransitive(a: string, b: string, c: string)
    requires LexLess(a, b) && LexLess(b, c)
    ensures LexLess(a, c)
  {
    if |a| > 0 && a[0] == b[0] == c[0] {
      LexTransitive(a[1..], b[1..], c[1..]);
    }
  }

  /** `b` has more behind a common start of length `k`, or a larger character there. */
  predicate LargerAt(a: string, b: string, k: nat) {
    k <= |a| && k < |b| && a[..k] == b[..k] && (k == |a| || a[k] < b[k])
  }

  /** The order of the dictionary. */
  lemma {:induction false} LexLessExactly(a: string, b: string)
    ensures LexLess(a, b) <==> exists k: nat :: LargerAt(a, b, k)
  {
    if a != [] && b != [] && a[0] == b[0] {
      LexLessExactly(a[1..], b[1..]);
      if k: nat :| LargerAt(a[1..], b[1..], k) {
        assert a[..k + 1] == [a[0]] + a[1..][..k] && b[..k + 1] == [b[0]] + b[1..][..k];
        assert LargerAt(a, b, k + 1);
      }
      if k: nat :| LargerAt(a, b, k) {
        assert k > 0;
        assert a[1..][..k - 1] == a[..k][1..] && b[1..][..k - 1] == b[..k][1..];
        assert LargerAt(a[1..], b[1..], k - 1);
      }
    } else {
      if LexLess(a, b) { assert LargerAt(a, b, 0); }
      if k: nat :| LargerAt(a, b, k) {
        assert k > 0 ==> a[..k][0] == b[..k][0];
      }
    }
  }

  // ----- Priorities by name

  /** Critical before high before medium before low before anything else. */
  predicate MoreUrgent(a: string, b: string) {
    || (a == "critical" && b != "critical")
    || (a == "high" && b !in {"critical", "high"})
    || (a == "medium" && b !in {"critical", "high", "medium"})
    || (a == "low" && b !in {"critical", "high", "medium", "low"})
  }

  // ----- Around the first colon

  function BeforeColon(text: string): string {
    if text == "" || text[0] == ':' then "" else [text[0]] + BeforeColon(text[1..])
  }

  /** What follows the first colon; nothing when there is none. */
  function AfterColon(text: string): string {
    if text == "" then "" else if text[0] == ':' then text[1..] else AfterColon(text[1..])
  }

  lemma {:induction false} ColonSplit(prefix: string, local: string)
    requires ':' !in prefix
    ensures BeforeColon(prefix + ":" + local) == prefix && AfterColon(prefix + ":" + local) == local
  {
    var text := prefix + ":" + local;
    if prefix == "" {
      assert text[1..] == local;
    } else {
      ColonSplit(prefix[1..], local);
      assert text[1..] == prefix[1..] + ":" + local;
    }
  }
}
