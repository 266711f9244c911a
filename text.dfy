/** The text operations of Go's `fmt` and `strings` packages that the
    adapters rely on: `%d` rendering of an integer (with a parser as its
    partner), `strings.Join`, counting lines, and the report header both
    handlers print. */
module Text {
  import opened Outcomes

  function DigitChar(d: int): (c: char)
    requires 0 <= d < 10
    ensures '0' <= c <= '9'
  {
    ('0' as int + d) as char
  }

  function DigitValue(c: char): (r: Option<nat>)
    ensures r.Some? <==> '0' <= c <= '9'
    ensures r.Some? ==> r.value < 10 && DigitChar(r.value) == c
  {
    if '0' <= c <= '9' then Some(c as int - '0' as int) else None
  }

  /** The decimal digits of `n`, most significant first, without leading zeros. */
  function Digits(n: nat): (s: string)
    ensures |s| >= 1
    ensures forall i :: 0 <= i < |s| ==> '0' <= s[i] <= '9'
    ensures s[0] == '0' ==> n == 0
    decreases n
  {
    if n < 10 then [DigitChar(n)] else Digits(n / 10) + [DigitChar(n % 10)]
  }

  /** `fmt.Sprintf("%d", i)`: a minus sign for negative numbers, then the digits. */
  function Decimal(i: int): (s: string)
    ensures |s| >= 1
    ensures s[0] == '-' <==> i < 0
    ensures forall k :: (if i < 0 then 1 else 0) <= k < |s| ==> '0' <= s[k] <= '9'
  {
    if i < 0 then "-" + Digits(-i) else Digits(i)
  }

  /** Reads a non-empty run of decimal digits. */
  function ParseDigits(s: string): (r: Option<nat>)
    decreases |s|
  {
    if |s| == 0 then None
    else
      match DigitValue(s[|s| - 1])
      case None => None
      case Some(d) =>
        if |s| == 1 then Some(d)
        else
          match ParseDigits(s[..|s| - 1])
          case None => None
          case Some(h) => Some(h * 10 + d)
  }

  /** Reads an optionally negative decimal number: the partner of `Decimal`. */
  function ParseDecimal(s: string): Option<int>
  {
    if |s| > 0 && s[0] == '-' then
      match ParseDigits(s[1..])
      case None => None
      case Some(n) => var v: int := n; Some(-v)
    else
      match ParseDigits(s)
      case None => None
      case Some(n) => Some(n)
  }

  lemma {:induction false} DigitsRoundTrip(n: nat)
    ensures ParseDigits(Digits(n)) == Some(n)
    decreases n
  {
    if n >= 10 {
      var s := Digits(n);
      assert s[..|s| - 1] == Digits(n / 10);
      DigitsRoundTrip(n / 10);
    }
  }

  /** How `ParseDecimal` reads a text, by its first character. */
  lemma ParseDecimalCases(s: string, n: nat)
    ensures |s| > 0 && s[0] == '-' && ParseDigits(s[1..]) == Some(n) ==> ParseDecimal(s) == Some(-(n as int))
    ensures (|s| == 0 || s[0] != '-') && ParseDigits(s) == Some(n) ==> ParseDecimal(s) == Some(n)
  {
  }

  /** Parsing the decimal rendering of any integer gives the integer back. */
  lemma DecimalRoundTrip(i: int)
    ensures ParseDecimal(Decimal(i)) == Some(i)
  {
    var s := Decimal(i);
    if i < 0 {
      var ds := Digits(-i);
      assert s[1..] == ds;
      DigitsRoundTrip(-i);
      ParseDecimalCases(s, -i);
    } else {
      assert s == Digits(i);
      DigitsRoundTrip(i);
      ParseDecimalCases(s, i);
    }
  }

  /** Different integers have different renderings. */
  lemma DecimalInjective(i: int, j: int)
    requires Decimal(i) == Decimal(j)
    ensures i == j
  {
    DecimalRoundTrip(i);
    DecimalRoundTrip(j);
  }

  /** The combined length of the elements. */
  function TotalLength(elems: seq<string>): nat
    decreases |elems|
  {
    if |elems| == 0 then 0 else |elems[0]| + TotalLength(elems[1..])
  }

  /** `strings.Join`: the elements in order with `sep` between each adjacent pair. */
  function Join(elems: seq<string>, sep: string): (s: string)
    ensures |elems| == 0 ==> s == ""
    ensures |elems| > 0 ==> elems[0] <= s
    ensures |elems| > 0 ==> |s| == TotalLength(elems) + (|elems| - 1) * |sep|
    decreases |elems|
  {
    if |elems| == 0 then ""
    else if |elems| == 1 then elems[0]
    else elems[0] + sep + Join(elems[1..], sep)
  }

  /** Appending an element adds the separator and the element at the end. */
  lemma {:induction false} JoinSnoc(elems: seq<string>, last: string, sep: string)
    requires |elems| > 0
    ensures Join(elems + [last], sep) == Join(elems, sep) + sep + last
    decreases |elems|
  {
    if |elems| > 1 {
      assert (elems + [last])[1..] == elems[1..] + [last];
      JoinSnoc(elems[1..], last, sep);
    } else {
      assert (elems + [last])[1..] == [last];
    }
  }

  /** A character in neither the elements nor the separator is not in the join. */
  lemma {:induction false} JoinAvoids(elems: seq<string>, sep: string, c: char)
    requires c !in sep
    requires forall k :: 0 <= k < |elems| ==> c !in elems[k]
    ensures c !in Join(elems, sep)
    decreases |elems|
  {
    if |elems| > 1 {
      JoinAvoids(elems[1..], sep, c);
    }
  }

  /** How many times `c` occurs in `s`. */
  function Count(s: string, c: char): (n: nat)
    ensures n <= |s|
    ensures n == 0 <==> c !in s
    decreases |s|
  {
    if |s| == 0 then 0 else (if s[0] == c then 1 else 0) + Count(s[1..], c)
  }

  lemma {:induction false} CountAppend(a: string, b: string, c: char)
    ensures Count(a + b, c) == Count(a, c) + Count(b, c)
    decreases |a|
  {
    if |a| > 0 {
      assert (a + b)[1..] == a[1..] + b;
      CountAppend(a[1..], b, c);
    } else {
      assert a + b == b;
    }
  }

  /** The first line of both reports, `搜索结果(共N条):` and a newline. */
  function Header(n: int): (h: string)
    ensures |h| == |Decimal(n)| + 10
    ensures h[..6] == "搜索结果(共" && h[6..|h| - 4] == Decimal(n) && h[|h| - 4..] == "条):\n"
  {
    "搜索结果(共" + Decimal(n) + "条):\n"
  }

  /** The header is exactly one line, ended by its newline. */
  lemma HeaderIsOneLine(n: int)
    ensures Count(Header(n), '\n') == 1
    ensures Header(n)[|Header(n)| - 1] == '\n'
  {
    var d := Decimal(n);
    assert forall k :: 0 <= k < |d| ==> d[k] != '\n';
    CountAppend("搜索结果(共", d, '\n');
    CountAppend("搜索结果(共" + d, "条):\n", '\n');
  }

  /** The header determines the count it states. */
  lemma HeaderInjective(n: int, m: int)
    requires Header(n) == Header(m)
    ensures n == m
  {
    var p := "搜索结果(共";
    var hn, hm := Header(n), Header(m);
    assert |hn| == |hm|;
    assert Decimal(n) == hn[|p|..|hn| - 4];
    assert Decimal(m) == hm[|p|..|hm| - 4];
    DecimalInjective(n, m);
  }

  /** One header is never a proper prefix of another: the digits of the
      shorter one meet `条` where the longer one has another digit. */
  lemma HeaderNotProperPrefix(n: int, m: int)
    requires |Header(n)| < |Header(m)|
    ensures Header(m)[..|Header(n)|] != Header(n)
  {
    var hn, hm := Header(n), Header(m);
    var dn, dm := Decimal(n), Decimal(m);
    var k := |"搜索结果(共"| + |dn|;
    assert |dn| < |dm|;
    assert hn[k] == '条';
    assert hm[k] == dm[|dn|];
    assert hm[..|hn|][k] != hn[k];
  }

  /** A text starts with at most one header: two headers it starts with
      state the same count. */
  lemma HeaderUnique(n: int, m: int, text: string)
    requires Header(n) <= text && Header(m) <= text
    ensures n == m
  {
    var hn, hm := Header(n), Header(m);
    if |hn| < |hm| {
      HeaderNotProperPrefix(n, m);
    } else if |hm| < |hn| {
      HeaderNotProperPrefix(m, n);
    } else {
      assert hn == text[..|hn|] == hm;
      HeaderInjective(n, m);
    }
  }
}
