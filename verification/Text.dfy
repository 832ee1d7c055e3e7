/** Free text as the domain normalises it: `str.strip`. */
module Text {

  /** The code points `str.isspace` accepts, which are the ones `strip` removes. */
  predicate IsSpace(c: char) {
    var n := c as int;
    || 0x09 <= n <= 0x0D || 0x1C <= n <= 0x20 || n == 0x85 || n == 0xA0 || n == 0x1680
    || 0x2000 <= n <= 0x200A || n == 0x2028 || n == 0x2029 || n == 0x202F || n == 0x205F || n == 0x3000
  }

  /** The first place at or after `i` that holds no white space. */
  function FirstKept(s: string, i: nat): (r: nat)
    requires i <= |s|
    ensures i <= r <= |s|
    decreases |s| - i
  {
    if i < |s| && IsSpace(s[i]) then FirstKept(s, i + 1) else i
  }

  /** The place after the last one in `s[i..j]` that holds no white space. */
  function LastKept(s: string, i: nat, j: nat): (r: nat)
    requires i <= j <= |s|
    ensures i <= r <= j
    decreases j - i
  {
    if i < j && IsSpace(s[j - 1]) then LastKept(s, i, j - 1) else j
  }

  function Strip(s: string): string {
    var i := FirstKept(s, 0);
    s[i..LastKept(s, i, |s|)]
  }

  predicate AllSpace(s: string) {
    forall k :: 0 <= k < |s| ==> IsSpace(s[k])
  }

  lemma {:induction false} FirstKeptIsFirst(s: string, i: nat)
    requires i <= |s|
    ensures FirstKept(s, i) < |s| ==> !IsSpace(s[FirstKept(s, i)])
    ensures forall k :: i <= k < FirstKept(s, i) ==> IsSpace(s[k])
    decreases |s| - i
  {
    if i < |s| && IsSpace(s[i]) {
      FirstKeptIsFirst(s, i + 1);
    }
  }

  lemma {:induction false} LastKeptIsLast(s: string, i: nat, j: nat)
    requires i <= j <= |s|
    ensures i < LastKept(s, i, j) ==> !IsSpace(s[LastKept(s, i, j) - 1])
    ensures forall k :: LastKept(s, i, j) <= k < j ==> IsSpace(s[k])
    decreases j - i
  {
    if i < j && IsSpace(s[j - 1]) {
      LastKeptIsLast(s, i, j - 1);
    }
  }

  /** Stripping removes white space from both ends and nothing else. */
  lemma StripIsExact(s: string)
    ensures exists i, j :: 0 <= i <= j <= |s| && Strip(s) == s[i..j] && AllSpace(s[..i]) && AllSpace(s[j..])
    ensures Strip(s) != [] ==> !IsSpace(Strip(s)[0]) && !IsSpace(Strip(s)[|Strip(s)| - 1])
  {
    var i := FirstKept(s, 0);
    var j := LastKept(s, i, |s|);
    FirstKeptIsFirst(s, 0);
    LastKeptIsLast(s, i, |s|);
    assert AllSpace(s[..i]) && AllSpace(s[j..]);
  }

  /** `kept` is what is left of `given` without the white space around it, and that is something. */
  ghost predicate Trims(given: string, kept: string) {
    && kept != [] && !IsSpace(kept[0]) && !IsSpace(kept[|kept| - 1])
    && exists i, j :: 0 <= i <= j <= |given| && kept == given[i..j] && AllSpace(given[..i]) && AllSpace(given[j..])
  }

  /** Nothing is left exactly of white space. */
  lemma StripOfSpace(s: string)
    ensures Strip(s) == [] <==> AllSpace(s)
  {
    var i := FirstKept(s, 0);
    FirstKeptIsFirst(s, 0);
    LastKeptIsLast(s, i, |s|);
  }

  /** Normalising twice is normalising once: nothing that was stored changes when it is read back. */
  lemma StripIdempotent(s: string)
    ensures Strip(Strip(s)) == Strip(s)
  {
    StripIsExact(s);
    var once := Strip(s);
    assert FirstKept(once, 0) == 0 && LastKept(once, 0, |once|) == |once|;
  }

  // ---------------------------------------------------------------- decimal numbers

  function Digit(d: nat): char
    requires d < 10
  {
    (d + '0' as int) as char
  }

  predicate IsDigit(c: char) {
    '0' <= c <= '9'
  }

  /** A natural number in decimal, without leading zeros. */
  function Decimal(n: nat): (r: string)
    ensures r != [] && forall k :: 0 <= k < |r| ==> IsDigit(r[k])
  {
    if n < 10 then [Digit(n)] else Decimal(n / 10) + [Digit(n % 10)]
  }

  /** `int` on a string of ASCII digits. */
  function Number(s: string): nat
    requires forall k :: 0 <= k < |s| ==> IsDigit(s[k])
  {
    if s == [] then 0
    else
      assert IsDigit(s[|s| - 1]);
      10 * Number(s[..|s| - 1]) + (s[|s| - 1] as int - '0' as int)
  }

  lemma {:induction false} NumberOfDecimal(n: nat)
    ensures Number(Decimal(n)) == n
  {
    var r := Decimal(n);
    if n < 10 {
      assert r[..|r| - 1] == [];
    } else {
      NumberOfDecimal(n / 10);
      assert r[..|r| - 1] == Decimal(n / 10);
    }
  }

  lemma DecimalIsInjective(m: nat, n: nat)
    ensures Decimal(m) == Decimal(n) ==> m == n
  {
    NumberOfDecimal(m);
    NumberOfDecimal(n);
  }
}
