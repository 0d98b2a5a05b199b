/** White space, decimal numbers without sign or padding, and sorted texts. */
module Text {
  /** The characters Python treats as white space. */
  predicate IsSpace(c: char) {
    c in {'\t', '\n', '\U{0B}', '\U{0C}', '\r', '\U{1C}', '\U{1D}', '\U{1E}', '\U{1F}', ' ', '\U{85}', '\U{A0}',
          '\U{1680}', '\U{2028}', '\U{2029}', '\U{202F}', '\U{205F}', '\U{3000}'}
    || '\U{2000}' <= c <= '\U{200A}'
  }

  function LStrip(s: string): string {
    if s != "" && IsSpace(s[0]) then LStrip(s[1..]) else s
  }

  function RStrip(s: string): string {
    if s != "" && IsSpace(s[|s| - 1]) then RStrip(s[..|s| - 1]) else s
  }

  function Strip(s: string): string {
    RStrip(LStrip(s))
  }

  lemma {:induction false} LStripNothing(s: string)
    ensures LStrip(s) == "" <==> forall i | 0 <= i < |s| :: IsSpace(s[i])
    ensures LStrip(s) != "" ==> !IsSpace(LStrip(s)[0])
  {
    if s != "" && IsSpace(s[0]) {
      LStripNothing(s[1..]);
      assert forall i | 1 <= i < |s| :: s[i] == s[1..][i - 1];
    }
  }

  lemma {:induction false} RStripKeepsFirst(s: string)
    requires s != "" && !IsSpace(s[0])
    ensures RStrip(s) != ""
  {
    if IsSpace(s[|s| - 1]) { RStripKeepsFirst(s[..|s| - 1]); }
  }

  /** Stripping leaves nothing exactly of white space. */
  lemma StripNothing(s: string)
    ensures Strip(s) == "" <==> forall i | 0 <= i < |s| :: IsSpace(s[i])
  {
    LStripNothing(s);
    if LStrip(s) != "" { RStripKeepsFirst(LStrip(s)); }
  }

  // ---------------------------------------------------------------------------------------------
  // Decimal numbers
  // ---------------------------------------------------------------------------------------------

  predicate IsAsciiDigit(c: char) { '0' <= c <= '9' }

  function Digit(d: nat): char
    requires d < 10
  {
    ('0' as int + d) as char
  }

  function Decimal(n: nat): string {
    if n < 10 then [Digit(n)] else Decimal(n / 10) + [Digit(n % 10)]
  }

  function DigitValue(c: char): nat
    requires IsAsciiDigit(c)
  {
    c as int - '0' as int
  }

  function Value(s: string): nat
    requires forall i | 0 <= i < |s| :: IsAsciiDigit(s[i])
  {
    if s == "" then 0 else 10 * Value(s[..|s| - 1]) + DigitValue(s[|s| - 1])
  }

  lemma {:induction false} DecimalReads(n: nat)
    ensures Decimal(n) != "" && forall i | 0 <= i < |Decimal(n)| :: IsAsciiDigit(Decimal(n)[i])
    ensures Value(Decimal(n)) == n
  {
    if n >= 10 {
      DecimalReads(n / 10);
      assert Decimal(n)[..|Decimal(n)| - 1] == Decimal(n / 10);
    }
  }

  lemma DecimalInjective(m: nat, n: nat)
    requires Decimal(m) == Decimal(n)
    ensures m == n
  {
    DecimalReads(m);
    DecimalReads(n);
  }

  /** A text is split at the last separator in only one way. */
  lemma LastSeparator(a: string, b: string, c: string, d: string, sep: char)
    requires a + [sep] + b == c + [sep] + d && sep !in b && sep !in d
    ensures a == c && b == d
  {
    var s := a + [sep] + b;
    assert s[|a|] == sep && s[|c|] == sep;
    assert forall i | |a| < i < |s| :: s[i] == b[i - |a| - 1];
    assert forall i | |c| < i < |s| :: s[i] == d[i - |c| - 1];
    assert |a| == |c|;
    assert a == s[..|a|] && c == s[..|c|];
    assert b == s[|a| + 1..] && d == s[|c| + 1..];
  }

  // ---------------------------------------------------------------------------------------------
  // sorted() of texts
  // ---------------------------------------------------------------------------------------------

  predicate LexLeq(a: string, b: string) {
    a == "" || (b != "" && (a[0] < b[0] || (a[0] == b[0] && LexLeq(a[1..], b[1..]))))
  }

  function InsertKey(k: string, s: seq<string>): seq<string> {
    if s == [] || LexLeq(k, s[0]) then [k] + s else [s[0]] + InsertKey(k, s[1..])
  }

  function SortedKeys(s: seq<string>): seq<string> {
    if s == [] then [] else InsertKey(s[0], SortedKeys(s[1..]))
  }

  lemma {:induction false} SortedKeysMembers(s: seq<string>)
    ensures |SortedKeys(s)| == |s| && forall k | k in SortedKeys(s) :: k in s
  {
    if s != [] {
      SortedKeysMembers(s[1..]);
      InsertKeyMembers(s[0], SortedKeys(s[1..]));
    }
  }

  lemma {:induction false} InsertKeyMembers(k: string, s: seq<string>)
    ensures |InsertKey(k, s)| == |s| + 1 && forall x | x in InsertKey(k, s) :: x == k || x in s
  {
    if s != [] && !LexLeq(k, s[0]) {
      InsertKeyMembers(k, s[1..]);
    }
  }

  lemma {:induction false} LexTotal(a: string, b: string)
    ensures LexLeq(a, b) || LexLeq(b, a)
  {
    if a != "" && b != "" && a[0] == b[0] { LexTotal(a[1..], b[1..]); }
  }

  lemma {:induction false} LexTransitive(a: string, b: string, c: string)
    requires LexLeq(a, b) && LexLeq(b, c)
    ensures LexLeq(a, c)
  {
    if a != "" && a[0] == b[0] && b[0] == c[0] { LexTransitive(a[1..], b[1..], c[1..]); }
  }

  predicate IsSorted(s: seq<string>) {
    forall i, j | 0 <= i < j < |s| :: LexLeq(s[i], s[j])
  }

  lemma {:induction false} InsertKeySorts(k: string, s: seq<string>)
    requires IsSorted(s)
    ensures IsSorted(InsertKey(k, s))
  {
    if s != [] {
      if LexLeq(k, s[0]) {
        forall j | 0 <= j < |s| ensures LexLeq(k, s[j]) {
          if j > 0 { LexTransitive(k, s[0], s[j]); }
        }
      } else {
        LexTotal(k, s[0]);
        InsertKeySorts(k, s[1..]);
        InsertKeyMembers(k, s[1..]);
        var t := InsertKey(k, s[1..]);
        forall j | 0 <= j < |t| ensures LexLeq(s[0], t[j]) {
          assert t[j] in t;
        }
      }
    }
  }

  // ---------------------------------------------------------------------------------------------
  // Lists without repetition
  // ---------------------------------------------------------------------------------------------

  predicate NoRepeat(s: seq<string>) {
    forall i, j | 0 <= i < j < |s| :: s[i] != s[j]
  }

  lemma NoRepeatConcat(a: seq<string>, b: seq<string>)
    requires NoRepeat(a) && NoRepeat(b) && forall k | k in a :: k !in b
    ensures NoRepeat(a + b)
  {
    var s := a + b;
    forall i, j | 0 <= i < j < |s| ensures s[i] != s[j] {
      assert i < |a| ==> s[i] in a;
      assert j >= |a| ==> s[j] in b;
    }
  }

  lemma {:induction false} InsertKeyExact(k: string, s: seq<string>)
    requires NoRepeat(s) && k !in s
    ensures NoRepeat(InsertKey(k, s)) && forall x :: x in InsertKey(k, s) <==> x == k || x in s
  {
    if s == [] || LexLeq(k, s[0]) {
      NoRepeatConcat([k], s);
    } else {
      InsertKeyExact(k, s[1..]);
      assert forall x :: x in s <==> x == s[0] || x in s[1..];
      NoRepeatConcat([s[0]], InsertKey(k, s[1..]));
    }
  }
}
