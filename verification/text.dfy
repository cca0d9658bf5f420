/** The text forms the runtime filter prints: integers as Go's `%d` verb and `fmt.Sprint` render them,
    lists joined by commas, and lists with a comma after every element. Each rendering has an inverse
    here, so that what is printed can be shown to determine what was rendered. */
module Text {

  predicate IsDigit(c: char) {
    '0' <= c <= '9'
  }

  function DigitChar(d: nat): (c: char)
    requires d < 10
    ensures IsDigit(c)
  {
    (48 + d) as char
  }

  function DigitValue(c: char): (d: nat)
    requires IsDigit(c)
    ensures d < 10
  {
    c as int - 48
  }

  predicate AllDigits(s: string) {
    forall i :: 0 <= i < |s| ==> IsDigit(s[i])
  }

  /** The decimal digits of `n`, most significant first, without leading zeros. */
  function NatDigits(n: nat): (s: string)
    ensures |s| > 0 && AllDigits(s)
    ensures |s| > 1 <==> n >= 10
    ensures n > 0 ==> s[0] != '0'
    ensures |s| > 1 ==> s[0] != '0'
    decreases n
  {
    if n < 10 then [DigitChar(n)] else NatDigits(n / 10) + [DigitChar(n % 10)]
  }

  /** An optional minus sign followed by at least one decimal digit. */
  predicate IsDecimal(s: string) {
    |s| > 0 && (IsDigit(s[0]) || (s[0] == '-' && |s| > 1)) &&
    forall i :: 0 < i < |s| ==> IsDigit(s[i])
  }

  /** The text of an integer as `%d` prints it: a minus sign for negative values, then the digits. */
  function DecimalString(n: int): (s: string)
    ensures IsDecimal(s)
    ensures s[0] == '-' <==> n < 0
  {
    if n < 0 then "-" + NatDigits(-n) else NatDigits(n)
  }

  function ParseNat(s: string): nat
    requires AllDigits(s)
    decreases |s|
  {
    if |s| == 0 then 0 else 10 * ParseNat(s[..|s| - 1]) + DigitValue(s[|s| - 1])
  }

  /** Reads back a decimal text. */
  function ParseDecimal(s: string): int
    requires IsDecimal(s)
  {
    if s[0] == '-' then
      assert forall i :: 0 <= i < |s[1..]| ==> s[1..][i] == s[i + 1];
      -(ParseNat(s[1..]) as int)
    else
      ParseNat(s)
  }

  lemma {:induction false} ParseNatDigits(n: nat)
    ensures ParseNat(NatDigits(n)) == n
    decreases n
  {
    if n >= 10 {
      var s := NatDigits(n);
      assert s[..|s| - 1] == NatDigits(n / 10);
      ParseNatDigits(n / 10);
    }
  }

  /** The decimal text of an integer reads back as that integer. */
  lemma DecimalRoundTrip(n: int)
    ensures ParseDecimal(DecimalString(n)) == n
  {
    if n < 0 {
      assert DecimalString(n)[1..] == NatDigits(-n);
      ParseNatDigits(-n);
    } else {
      ParseNatDigits(n);
    }
  }

  /** Different integers print differently. */
  lemma DecimalInjective(a: int, b: int)
    requires DecimalString(a) == DecimalString(b)
    ensures a == b
  {
    DecimalRoundTrip(a);
    DecimalRoundTrip(b);
  }

  predicate NoComma(t: string) {
    forall i :: 0 <= i < |t| ==> t[i] != ','
  }

  /** The texts with a single comma between neighbours and none before the first or after the last. */
  function JoinComma(ts: seq<string>): string
    decreases |ts|
  {
    if |ts| == 0 then ""
    else if |ts| == 1 then ts[0]
    else JoinComma(ts[..|ts| - 1]) + "," + ts[|ts| - 1]
  }

  /** The pieces of `s` between commas, in order: the inverse of JoinComma. */
  function SplitComma(s: string): (parts: seq<string>)
    ensures |parts| > 0
    decreases |s|
  {
    if |s| == 0 then [""]
    else
      var init := SplitComma(s[..|s| - 1]);
      if s[|s| - 1] == ',' then init + [""]
      else init[..|init| - 1] + [init[|init| - 1] + [s[|s| - 1]]]
  }

  /** The texts, each followed by a comma. */
  function Terminated(ts: seq<string>): string
    decreases |ts|
  {
    if |ts| == 0 then "" else Terminated(ts[..|ts| - 1]) + ts[|ts| - 1] + ","
  }

  /** Appending a character other than a comma extends the last piece. */
  lemma SplitAppendChar(a: string, c: char)
    requires c != ','
    ensures var pa := SplitComma(a); SplitComma(a + [c]) == pa[..|pa| - 1] + [pa[|pa| - 1] + [c]]
  {
    assert (a + [c])[..|a|] == a;
  }

  /** Appending comma-free text extends the last piece. */
  lemma {:induction false} SplitAppendPlain(a: string, t: string)
    requires NoComma(t)
    ensures var pa := SplitComma(a); SplitComma(a + t) == pa[..|pa| - 1] + [pa[|pa| - 1] + t]
    decreases |t|
  {
    var pa := SplitComma(a);
    if |t| == 0 {
      assert a + t == a && t == "";
      assert pa[|pa| - 1] + t == pa[|pa| - 1];
      assert pa[..|pa| - 1] + [pa[|pa| - 1]] == pa;
    } else {
      var t', c := t[..|t| - 1], t[|t| - 1];
      assert NoComma(t');
      SplitAppendPlain(a, t');
      var p := SplitComma(a + t');
      assert p == pa[..|pa| - 1] + [pa[|pa| - 1] + t'];
      SplitAppendChar(a + t', c);
      assert (a + t') + [c] == a + t;
      assert p[..|p| - 1] == pa[..|pa| - 1];
      assert (pa[|pa| - 1] + t') + [c] == pa[|pa| - 1] + t;
    }
  }

  /** Appending a comma starts a new, empty piece. */
  lemma SplitAppendComma(a: string)
    ensures SplitComma(a + ",") == SplitComma(a) + [""]
  {
    assert (a + ",")[..|a|] == a;
  }

  /** Splitting the comma-joined texts gives the texts back, provided none of them holds a comma. */
  lemma {:induction false} SplitJoin(ts: seq<string>)
    requires |ts| > 0 && forall i :: 0 <= i < |ts| ==> NoComma(ts[i])
    ensures SplitComma(JoinComma(ts)) == ts
    decreases |ts|
  {
    var last := ts[|ts| - 1];
    if |ts| == 1 {
      SplitAppendPlain("", last);
      assert "" + last == last;
    } else {
      var init := ts[..|ts| - 1];
      assert forall i :: 0 <= i < |init| ==> init[i] == ts[i];
      SplitJoin(init);
      var a := JoinComma(init) + ",";
      SplitAppendComma(JoinComma(init));
      assert SplitComma(a) == init + [""];
      SplitAppendPlain(a, last);
      assert JoinComma(ts) == a + last;
      assert SplitComma(a + last) == init + ["" + last];
      assert "" + last == last;
      assert init + [last] == ts;
    }
  }

  /** A non-empty list with a comma after every text is the comma-joined list with one trailing comma. */
  lemma {:induction false} TerminatedIsJoinedPlusComma(ts: seq<string>)
    requires |ts| > 0
    ensures Terminated(ts) == JoinComma(ts) + ","
    decreases |ts|
  {
    if |ts| > 1 {
      TerminatedIsJoinedPlusComma(ts[..|ts| - 1]);
    }
  }
}
