/** The string operations the rest of the model needs, on ASCII text. */
module Text {

  predicate IsSpace(c: char) {
    c in " \t\n\r\U{B}\U{C}"
  }

  function Lower(c: char): char {
    if 'A' <= c <= 'Z' then (c as int + 32) as char else c
  }

  function ToLower(s: string): (r: string)
    ensures |r| == |s|
    ensures forall i :: 0 <= i < |s| ==> r[i] == Lower(s[i])
  {
    seq(|s|, i requires 0 <= i < |s| => Lower(s[i]))
  }

  predicate IsLower(s: string) {
    forall c :: c in s ==> Lower(c) == c
  }

  lemma LowerId(s: string)
    requires IsLower(s)
    ensures ToLower(s) == s
  {
  }

  lemma LowerConcat(a: string, b: string)
    ensures ToLower(a + b) == ToLower(a) + ToLower(b)
  {
  }

  lemma LowerDrop(s: string, k: nat)
    requires k <= |s|
    ensures ToLower(s)[k..] == ToLower(s[k..])
  {
  }

  /** The first position at which `pat` occurs in `s`, or -1. */
  function Index(s: string, pat: string): (r: int)
    ensures r == -1 || 0 <= r <= |s| - |pat|
  {
    if pat <= s then 0
    else if s == "" then -1
    else
      var r := Index(s[1..], pat);
      if r < 0 then -1 else r + 1
  }

  /** `Index` is the first occurrence: `pat` starts there and nowhere before. */
  lemma {:induction false} IndexFirst(s: string, pat: string, j: nat)
    requires j <= |s|
    ensures Index(s, pat) == j ==> pat <= s[j..]
    ensures pat <= s[j..] ==> 0 <= Index(s, pat) <= j
  {
    if pat <= s {
      assert s[0..] == s;
    } else if j == 0 {
      assert s[0..] == s;
    } else {
      IndexFirst(s[1..], pat, j - 1);
      assert s[1..][j - 1..] == s[j..];
    }
  }

  /** Skipping characters that cannot start `pat`. */
  lemma {:induction false} IndexSkip(s: string, pat: string, k: nat)
    requires k <= |s| && pat != ""
    requires forall j :: 0 <= j < k ==> s[j] != pat[0]
    ensures Index(s[k..], pat) < 0 ==> Index(s, pat) < 0
    ensures Index(s[k..], pat) >= 0 ==> Index(s, pat) == k + Index(s[k..], pat)
  {
    if k > 0 {
      IndexSkip(s[1..], pat, k - 1);
      assert s[1..][k - 1..] == s[k..];
    } else {
      assert s[0..] == s;
    }
  }

  /** `pat` is found right after text that holds no first character of it. */
  lemma IndexAfter(a: string, pat: string, b: string)
    requires pat != "" && pat[0] !in a
    ensures Index(a + pat + b, pat) == |a|
  {
    var s := a + pat + b;
    assert s[|a|..] == pat + b;
    IndexSkip(s, pat, |a|);
  }

  /** The first position of one character, or -1. */
  function IndexByte(s: string, c: char): (r: int)
    ensures -1 <= r < |s|
    ensures r >= 0 ==> s[r] == c
    ensures forall j :: 0 <= j < |s| && (r < 0 || j < r) ==> s[j] != c
  {
    if s == "" then -1
    else if s[0] == c then 0
    else
      var r := IndexByte(s[1..], c);
      if r < 0 then -1 else r + 1
  }

  lemma Assoc<T>(a: seq<T>, b: seq<T>, c: seq<T>)
    ensures (a + b) + c == a + (b + c)
  {
  }

  lemma IndexByteIs(s: string, c: char, k: nat)
    requires k < |s| && s[k] == c && forall j :: 0 <= j < k ==> s[j] != c
    ensures IndexByte(s, c) == k
  {
  }

  lemma IndexByteAfter(a: string, c: char, b: string)
    requires c !in a
    ensures IndexByte(a + [c] + b, c) == |a|
  {
    IndexByteIs(a + [c] + b, c, |a|);
  }

  // ---- trimming ----

  function TrimLeft(s: string): (r: string)
    ensures |r| <= |s|
  {
    if s != "" && IsSpace(s[0]) then TrimLeft(s[1..]) else s
  }

  function TrimRight(s: string): (r: string)
    ensures r <= s
  {
    if s != "" && IsSpace(s[|s| - 1]) then TrimRight(s[..|s| - 1]) else s
  }

  function TrimSpace(s: string): (r: string)
    ensures |r| <= |s|
  {
    TrimRight(TrimLeft(s))
  }

  predicate Blank(s: string) {
    forall c :: c in s ==> IsSpace(c)
  }

  lemma {:induction false} TrimRightBlank(s: string)
    ensures Blank(s) <==> TrimRight(s) == ""
  {
    if s != "" && IsSpace(s[|s| - 1]) {
      TrimRightBlank(s[..|s| - 1]);
      assert s == s[..|s| - 1] + [s[|s| - 1]];
    }
  }

  lemma {:induction false} TrimBlank(s: string)
    ensures Blank(s) <==> TrimSpace(s) == ""
  {
    if s != "" && IsSpace(s[0]) {
      TrimBlank(s[1..]);
      assert s == [s[0]] + s[1..];
    } else {
      TrimRightBlank(s);
    }
  }

  // ---- decimal numbers ----

  function Digit(d: nat): char
    requires d < 10
  {
    (d + '0' as int) as char
  }

  predicate IsDigit(c: char) { '0' <= c <= '9' }

  function Itoa(n: nat): (s: string)
    ensures s != "" && forall c :: c in s ==> IsDigit(c)
  {
    if n < 10 then [Digit(n)] else Itoa(n / 10) + [Digit(n % 10)]
  }

  // ---- byte order ----

  predicate Below(a: string, b: string) {
    b != "" && (a == "" || a[0] < b[0] || (a[0] == b[0] && Below(a[1..], b[1..])))
  }

  lemma {:induction false} BelowTransitive(a: string, b: string, c: string)
    requires Below(a, b) && Below(b, c)
    ensures Below(a, c)
  {
    if a != "" && a[0] == b[0] == c[0] { BelowTransitive(a[1..], b[1..], c[1..]); }
  }

  lemma {:induction false} BelowTotal(a: string, b: string)
    ensures a == b || Below(a, b) || Below(b, a)
    ensures !(Below(a, b) && Below(b, a)) && !Below(a, a)
  {
    if a != "" && b != "" {
      BelowTotal(a[1..], b[1..]);
      assert a == [a[0]] + a[1..] && b == [b[0]] + b[1..];
    }
    BelowSelf(a);
  }

  lemma {:induction false} BelowSelf(a: string)
    ensures !Below(a, a)
  {
    if a != "" { BelowSelf(a[1..]); }
  }
}
