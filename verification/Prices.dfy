/**
 * Printing a price (bot/alerts.py `_format_optional_price`) and checking the prices quoted in prose
 * (`_validate_event_alert_render_prices`). Prices are exact numbers here; `word` says which
 * characters a regular expression counts as word characters.
 */
module Prices {
  import opened Prelude

  predicate IsDigit(c: char) {
    '0' <= c <= '9'
  }

  predicate IsNumeric(c: char) {
    IsDigit(c) || c == ','
  }

  predicate IsSpace(c: char) {
    var v := c as int;
    9 <= v <= 13 || 28 <= v <= 32 || v == 0x85 || v == 0xA0 || v == 0x1680 || 0x2000 <= v <= 0x200A
    || v == 0x2028 || v == 0x2029 || v == 0x202F || v == 0x205F || v == 0x3000
  }

  // ---------- numbers and their digits

  predicate Digits(s: string) {
    forall k :: 0 <= k < |s| ==> IsDigit(s[k])
  }

  predicate Numeric(s: string) {
    forall k :: 0 <= k < |s| ==> IsNumeric(s[k])
  }

  function Strip(s: string): (r: string)
    ensures Numeric(s) ==> Digits(r)
    ensures Digits(s) ==> r == s
  {
    if s == "" then "" else if s[0] == ',' then Strip(s[1..]) else [s[0]] + Strip(s[1..])
  }

  lemma {:induction false} StripAppend(a: string, b: string)
    ensures Strip(a + b) == Strip(a) + Strip(b)
  {
    if a == "" {
      assert a + b == b;
    } else {
      assert (a + b)[1..] == a[1..] + b;
      StripAppend(a[1..], b);
    }
  }

  function NumberOf(s: string): nat
    requires Digits(s)
  {
    if s == "" then 0 else 10 * NumberOf(s[..|s| - 1]) + (s[|s| - 1] as int - '0' as int)
  }

  function Pow10(n: nat): nat {
    if n == 0 then 1 else 10 * Pow10(n - 1)
  }

  function Three(n: nat): (s: string)
    requires n < 1000
    ensures |s| == 3 && Digits(s)
  {
    [Digit(n / 100), Digit(n / 10 % 10), Digit(n % 10)]
  }

  /** Digits with a comma before every group of three. */
  function Grouped(n: nat): (s: string)
    ensures s != "" && IsDigit(s[0]) && Numeric(s)
  {
    if n < 1000 then (assert forall k :: 0 <= k < |Decimal(n)| ==> Decimal(n)[k] in Decimal(n); Decimal(n))
        else Grouped(n / 1000) + "," + Three(n % 1000)
  }

  /** The nearest integer, ties to the even one. */
  function RoundEven(x: real): int {
    var down := x.Floor;
    var rest := x - down as real;
    if rest < 0.5 || (rest == 0.5 && down % 2 == 0) then down else down + 1
  }

  function Cents(price: real): nat
    requires price >= 0.0
  {
    RoundEven(price * 100.0)
  }

  function Print(price: real): string
    requires price >= 0.0
  {
    var c := Cents(price);
    "$" + Grouped(c / 100) + "." + [Digit(c / 10 % 10), Digit(c % 10)]
  }

  // ---------- the quotes in a text

  function SkipWhile(text: string, p: nat, ok: char -> bool): (r: nat)
    requires p <= |text|
    ensures p <= r <= |text|
    ensures forall k :: p <= k < r ==> ok(text[k])
    ensures r < |text| ==> !ok(text[r])
    decreases |text| - p
  {
    if p < |text| && ok(text[p]) then SkipWhile(text, p + 1, ok) else p
  }

  /** A quoted number: its whole part, perhaps with commas, its decimals, and where it ends. */
  datatype Quote = Quote(whole: string, decimals: string, end: nat)

  function QuoteAt(text: string, p: nat): (q: Option<Quote>)
    requires p < |text|
    ensures q.Some? ==> text[p] == '$' && p < q.value.end <= |text|
    ensures q.Some? ==> forall k :: p < k < q.value.end ==> text[k] != '$'
    ensures q.Some? ==> Numeric(q.value.whole) && Digits(q.value.decimals)
  {
    if text[p] != '$' then None
    else
      var a := SkipWhile(text, p + 1, IsSpace);
      if a == |text| || !IsDigit(text[a]) then None
      else
        var b := SkipWhile(text, a, IsNumeric);
        if b + 1 < |text| && text[b] == '.' && IsDigit(text[b + 1]) then
          var e := SkipWhile(text, b + 1, IsDigit);
          Some(Quote(text[a..b], text[b + 1..e], e))
        else Some(Quote(text[a..b], "", b))
  }

  function FoldsTo(c: char, l: char): bool {
    c == l || ('a' <= l <= 'z' && c as int == l as int - 32) || (l == 'i' && (c == '\U{131}' || c == '\U{130}'))
  }

  predicate ScaleWord(s: string, w: string, word: char -> bool) {
    && |w| <= |s| && (forall k :: 0 <= k < |w| ==> FoldsTo(s[k], w[k]))
    && (|s| == |w| || !word(s[|w|]))
  }

  /** Followed by a scale word within sixteen characters: a headline sum, not a price level. */
  predicate Scaled(text: string, end: nat, word: char -> bool)
    requires end <= |text|
  {
    var suffix := text[end..if end + 16 <= |text| then end + 16 else |text|];
    var s := suffix[SkipWhile(suffix, 0, IsSpace)..];
    ScaleWord(s, "billion", word) || ScaleWord(s, "million", word) || ScaleWord(s, "trillion", word)
        || ScaleWord(s, "bn", word)
  }

  /** `n`, read with that many decimal places, is within half a unit of its last place of `price`. */
  predicate WithinHalf(n: int, places: nat, price: real) {
    -0.5 <= n as real - price * Pow10(places) as real <= 0.5
  }

  /** The quoted number is within half a unit of its last place of `price`. */
  predicate Near(q: Quote, price: real)
    requires Numeric(q.whole) && Digits(q.decimals)
  {
    WithinHalf(NumberOf(Strip(q.whole) + q.decimals), |q.decimals|, price)
  }

  predicate Supported(text: string, p: nat, observed: seq<real>, word: char -> bool)
    requires p < |text|
  {
    var q := QuoteAt(text, p);
    q.None? || Scaled(text, q.value.end, word) || exists k :: 0 <= k < |observed| && Near(q.value, observed[k])
  }

  /** Every price quoted in the text, other than a scaled sum, is an observed one at its precision. */
  ghost predicate Accepts(text: string, observed: seq<real>, word: char -> bool) {
    forall p: nat :: p < |text| ==> Supported(text, p, observed, word)
  }

  method AnyNear(q: Quote, observed: seq<real>) returns (any: bool)
    requires Numeric(q.whole) && Digits(q.decimals)
    ensures any <==> exists k :: 0 <= k < |observed| && Near(q, observed[k])
  {
    for k := 0 to |observed|
      invariant forall j :: 0 <= j < k ==> !Near(q, observed[j])
    {
      if Near(q, observed[k]) { return true; }
    }
    any := false;
  }

  /** Left to right, each search resuming where the last match ended. */
  method ValidateText(text: string, observed: seq<real>, word: char -> bool) returns (ok: bool)
    ensures ok <==> Accepts(text, observed, word)
  {
    var i := 0;
    while i < |text|
      invariant i <= |text|
      invariant forall p: nat :: p < i ==> Supported(text, p, observed, word)
    {
      var q := QuoteAt(text, i);
      if q.None? {
        i := i + 1;
      } else {
        var near := AnyNear(q.value, observed);
        if !Scaled(text, q.value.end, word) && !near {
          assert !Supported(text, i, observed, word);
          return false;
        }
        assert Supported(text, i, observed, word);
        forall p: nat | i < p < q.value.end ensures Supported(text, p, observed, word) {}
        i := q.value.end;
      }
    }
    ok := true;
  }

  method Validate(fields: seq<string>, observed: seq<real>, word: char -> bool) returns (ok: bool)
    ensures ok <==> forall k :: 0 <= k < |fields| ==> Accepts(fields[k], observed, word)
  {
    for k := 0 to |fields|
      invariant forall j :: 0 <= j < k ==> Accepts(fields[j], observed, word)
    {
      var fine := ValidateText(fields[k], observed, word);
      if !fine { return false; }
    }
    ok := true;
  }

  // ---------- the printer agrees with the validator

  lemma NumberSnoc(s: string, c: char)
    requires IsDigit(c) && Digits(s)
    ensures NumberOf(s + [c]) == 10 * NumberOf(s) + (c as int - '0' as int)
  {
  }

  lemma {:induction false} DecimalIsNumber(n: nat)
    ensures Digits(Decimal(n)) && NumberOf(Decimal(n)) == n
  {
    if n < 10 {
      NumberSnoc("", Digit(n));
      assert "" + [Digit(n)] == Decimal(n);
    } else {
      DecimalIsNumber(n / 10);
      NumberSnoc(Decimal(n / 10), Digit(n % 10));
    }
  }

  lemma ThreeMore(s: string, n: nat)
    requires n < 1000 && Digits(s)
    ensures NumberOf(s + Three(n)) == 1000 * NumberOf(s) + n
  {
    hide NumberOf;
    var a, b, c := Digit(n / 100), Digit(n / 10 % 10), Digit(n % 10);
    assert n == 100 * (n / 100) + 10 * (n / 10 % 10) + n % 10;
    NumberSnoc(s, a);
    NumberSnoc(s + [a], b);
    NumberSnoc(s + [a] + [b], c);
    assert s + Three(n) == s + [a] + [b] + [c];
  }

  /** Without its commas, the grouped print is the number. */
  lemma {:induction false} GroupedIsNumber(n: nat)
    ensures NumberOf(Strip(Grouped(n))) == n
  {
    if n < 1000 {
      DecimalIsNumber(n);
    } else {
      var g, t := Grouped(n / 1000), Three(n % 1000);
      GroupedIsNumber(n / 1000);
      StripAppend(g + ",", t);
      StripAppend(g, ",");
      assert Strip(",") == "" && Strip(t) == t;
      assert Strip(g) + "" == Strip(g);
      ThreeMore(Strip(g), n % 1000);
    }
  }

  /** A comma stands wherever a multiple of three digits follows, and no zero leads but a lone one. */
  lemma {:induction false} GroupedForm(n: nat)
    ensures forall k :: 0 <= k < |Grouped(n)| ==> (Grouped(n)[k] == ',' <==> (|Grouped(n)| - k) % 4 == 0)
    ensures Grouped(n)[0] == '0' <==> n == 0
    ensures n == 0 ==> Grouped(n) == "0"
  {
    if n < 1000 {
      DecimalForm(n);
    } else {
      GroupedForm(n / 1000);
      var g, t, s := Grouped(n / 1000), Three(n % 1000), Grouped(n);
      assert s == g + "," + t && s[0] == g[0] && n / 1000 > 0;
      hide Grouped, Three;
      forall k | 0 <= k < |s| ensures s[k] == ',' <==> (|s| - k) % 4 == 0 {
        if k < |g| {
          assert s[k] == g[k];
          FourFurther(|g| - k);
        } else if k > |g| {
          assert s[k] == t[k - |g| - 1];
        }
      }
    }
  }

  lemma FourFurther(d: nat)
    ensures (d + 4) % 4 == d % 4
  {
  }

  lemma DecimalForm(n: nat)
    requires n < 1000
    ensures 1 <= |Decimal(n)| <= 3 && Digits(Decimal(n)) && (Decimal(n)[0] == '0' <==> n == 0)
    ensures n == 0 ==> Decimal(n) == "0"
  {
    if n >= 10 {
      assert Decimal(n) == Decimal(n / 10) + [Digit(n % 10)];
      if n >= 100 {
        assert Decimal(n / 10) == Decimal(n / 100) + [Digit(n / 10 % 10)];
      }
    }
  }

  lemma RoundEvenNear(x: real)
    ensures -0.5 <= RoundEven(x) as real - x <= 0.5
  {
  }

  lemma {:induction false} SkipExactly(text: string, p: nat, r: nat, ok: char -> bool)
    requires p <= r <= |text| && (forall k :: p <= k < r ==> ok(text[k])) && (r < |text| ==> !ok(text[r]))
    ensures SkipWhile(text, p, ok) == r
    decreases r - p
  {
  }

  /** A price `$g.d`, wherever it stands, is read back whole unless a digit follows. */
  lemma ReadBack(text: string, p: nat, g: string, d: string)
    requires g != "" && IsDigit(g[0]) && Numeric(g) && d != "" && Digits(d)
    requires p + |g| + |d| + 2 <= |text| && text[p] == '$' && text[p + 1..p + 1 + |g|] == g
    requires text[p + 1 + |g|] == '.' && text[p + 2 + |g|..p + 2 + |g| + |d|] == d
    requires p + |g| + |d| + 2 < |text| ==> !IsDigit(text[p + |g| + |d| + 2])
    ensures QuoteAt(text, p) == Some(Quote(g, d, p + |g| + |d| + 2))
  {
    var a, b, e := p + 1, p + 1 + |g|, p + 2 + |g| + |d|;
    forall k | a <= k < b ensures text[k] == g[k - a] { assert text[a..b][k - a] == text[k]; }
    forall k | b + 1 <= k < e ensures text[k] == d[k - b - 1] { assert text[b + 1..e][k - b - 1] == text[k]; }
    hide QuoteAt;
    ReadsOnlyThat(text, p, a, b, Quote(g, d, e));
  }

  function WholePart(price: real): string
    requires price >= 0.0
  {
    Grouped(Cents(price) / 100)
  }

  function CentsPart(price: real): string
    requires price >= 0.0
  {
    [Digit(Cents(price) / 10 % 10), Digit(Cents(price) % 10)]
  }

  /** The printed price with the digits `e` behind it, if any, in prose. */
  function Prose(before: string, price: real, e: string, after: string): string
    requires price >= 0.0
  {
    before + (Print(price) + e) + after
  }

  function PrintedAs(before: string, price: real, e: string): (q: Quote)
    requires price >= 0.0 && Digits(e)
    ensures Numeric(q.whole) && Digits(q.decimals)
  {
    Quote(WholePart(price), CentsPart(price) + e, |before| + |Print(price)| + |e|)
  }

  /** In any surroundings the printed price is read back whole, together with whatever digits stand
      behind it. */
  lemma PrintedQuote(before: string, price: real, e: string, after: string)
    requires price >= 0.0 && Digits(e) && (after != "" ==> !IsDigit(after[0]))
    ensures QuoteAt(Prose(before, price, e, after), |before|) == Some(PrintedAs(before, price, e))
  {
    hide QuoteAt, Cents, Grouped;
    var g, d := WholePart(price), CentsPart(price) + e;
    var text, p, shown := Prose(before, price, e, after), |before|, Print(price) + e;
    assert shown == "$" + g + "." + d;
    assert text[p..p + |shown|] == shown;
    assert text[p + 1..p + 1 + |g|] == shown[1..1 + |g|] == g;
    assert text[p + 2 + |g|..p + 2 + |g| + |d|] == shown[2 + |g|..] == d;
    ReadBack(text, p, g, d);
  }

  lemma OneDollar(price: real, e: string)
    requires price >= 0.0 && Digits(e)
    ensures forall k :: 0 < k < |Print(price) + e| ==> (Print(price) + e)[k] != '$'
  {
  }

  /** With nothing else quoted, the prose is accepted if and only if the quote so read is a scaled sum
      or within half a unit of its own last place of an observed price. */
  lemma PrintedAcceptedIff(before: string, price: real, e: string, after: string, observed: seq<real>,
      word: char -> bool)
    requires price >= 0.0 && Digits(e) && (after != "" ==> !IsDigit(after[0]))
    requires '$' !in before && '$' !in after
    ensures var q := PrintedAs(before, price, e);
            && q.end <= |Prose(before, price, e, after)|
            && (Accepts(Prose(before, price, e, after), observed, word) <==>
                  Scaled(Prose(before, price, e, after), q.end, word)
                      || exists k :: 0 <= k < |observed| && Near(q, observed[k]))
  {
    var text := Prose(before, price, e, after);
    PrintedQuote(before, price, e, after);
    OneDollar(price, e);
    hide QuoteAt, Print, Near, Scaled, PrintedAs;
    forall p: nat | p < |text| && p != |before| ensures Supported(text, p, observed, word) {
      if p < |before| {
        assert text[p] == before[p];
      } else if p < |before| + |Print(price) + e| {
        assert text[p] == (Print(price) + e)[p - |before|];
      } else {
        assert text[p] == after[p - |before| - |Print(price) + e|];
      }
    }
    assert Accepts(text, observed, word) <==> Supported(text, |before|, observed, word);
  }

  // ---------- what the quote is worth

  lemma {:induction false} NumberAppend(s: string, t: string)
    requires Digits(s) && Digits(t)
    ensures NumberOf(s + t) == NumberOf(s) * Pow10(|t|) + NumberOf(t)
  {
    if t == "" {
      assert s + t == s;
    } else {
      var init, c := t[..|t| - 1], t[|t| - 1];
      assert s + t == s + init + [c] && t == init + [c];
      NumberAppend(s, init);
      NumberSnoc(s + init, c);
      NumberSnoc(init, c);
      Rescale(NumberOf(s), Pow10(|init|));
    }
  }

  lemma Rescale(a: nat, b: nat)
    ensures 10 * (a * b) == a * (10 * b)
  {
  }

  lemma PrintedNumber(price: real)
    requires price >= 0.0
    ensures Digits(Strip(WholePart(price)) + CentsPart(price))
    ensures NumberOf(Strip(WholePart(price)) + CentsPart(price)) == Cents(price)
  {
    hide NumberOf, Strip, Grouped, RoundEven;
    var c := Cents(price);
    var s := Strip(Grouped(c / 100));
    var x, y := Digit(c / 10 % 10), Digit(c % 10);
    GroupedIsNumber(c / 100);
    NumberSnoc(s, x);
    NumberSnoc(s + [x], y);
    assert s + [x, y] == s + [x] + [y];
    assert c == 100 * (c / 100) + 10 * (c / 10 % 10) + c % 10;
  }

  /** The printed cents with the digits `e` for further places. */
  function Shown(price: real, e: string): int
    requires price >= 0.0 && Digits(e)
  {
    Cents(price) * Pow10(|e|) + NumberOf(e)
  }

  lemma PrintedNearIff(before: string, price: real, e: string, x: real)
    requires price >= 0.0 && Digits(e)
    ensures Near(PrintedAs(before, price, e), x) <==>
              WithinHalf(Shown(price, e), 2 + |e|, x)
  {
    PrintedDigits(price, e);
    PartsOf(before, price, e);
    hide Shown, NumberOf, Strip, WholePart, CentsPart, Pow10, PrintedAs, WithinHalf;
    var q := PrintedAs(before, price, e);
    assert Strip(q.whole) + q.decimals == Strip(WholePart(price)) + (CentsPart(price) + e);
  }

  lemma PartsOf(before: string, price: real, e: string)
    requires price >= 0.0 && Digits(e)
    ensures PrintedAs(before, price, e).whole == WholePart(price)
        && PrintedAs(before, price, e).decimals == CentsPart(price) + e
  {
    hide Print, WholePart, CentsPart;
  }

  lemma PrintedDigits(price: real, e: string)
    requires price >= 0.0 && Digits(e)
    ensures |CentsPart(price)| == 2 && Digits(Strip(WholePart(price)) + (CentsPart(price) + e))
    ensures NumberOf(Strip(WholePart(price)) + (CentsPart(price) + e)) == Shown(price, e)
  {
    hide NumberOf, Strip, WholePart, Cents, Pow10;
    PrintedNumber(price);
    var w, c := Strip(WholePart(price)), CentsPart(price);
    NumberAppend(w + c, e);
    assert w + (c + e) == (w + c) + e;
  }

  /** Printed is the nearest number of cents, and of two the even one. */
  lemma CentsNearest(price: real)
    requires price >= 0.0
    ensures -0.5 <= Cents(price) as real - price * 100.0 <= 0.5
    ensures Cents(price) as real - price * 100.0 in [0.5, -0.5] ==> Cents(price) % 2 == 0
  {
    RoundEvenNear(price * 100.0);
  }

  /** Without further digits, it is within half a cent of the price printed. */
  lemma PrintedNear(before: string, price: real)
    requires price >= 0.0
    ensures Near(PrintedAs(before, price, ""), price)
  {
    PrintedNearIff(before, price, "", price);
    assert Pow10(2) == 100 && Pow10(0) == 1;
    assert Shown(price, "") == Cents(price);
    hide Near, PrintedAs, RoundEven, Pow10, Shown;
    RoundEvenNear(price * 100.0);
  }

  /** A printed observed price in prose is accepted, provided no digit follows it and nothing else is quoted. */
  lemma PrintedAccepted(before: string, price: real, after: string, observed: seq<real>, word: char -> bool)
    requires price >= 0.0 && price in observed && (after != "" ==> !IsDigit(after[0]))
    requires '$' !in before && '$' !in after
    ensures Accepts(before + Print(price) + after, observed, word)
  {
    assert Print(price) + "" == Print(price);
    PrintedAcceptedIff(before, price, "", after, observed, word);
    PrintedNear(before, price);
    hide Near, PrintedAs, Accepts, Scaled;
    var k :| 0 <= k < |observed| && observed[k] == price;
    assert Near(PrintedAs(before, price, ""), observed[k]);
  }

  /** So where a whole number of cents is the only price observed, digits behind its print are
      accepted if and only if they are all zero (or it is a scaled sum), though every one of them
      continues an observed price. */
  lemma DigitsBehind(before: string, price: real, cents: nat, e: string, after: string, word: char -> bool)
    requires price * 100.0 == cents as real
    requires Digits(e) && (after != "" ==> !IsDigit(after[0])) && '$' !in before && '$' !in after
    ensures PrintedAs(before, price, e).end <= |Prose(before, price, e, after)|
    ensures Accepts(Prose(before, price, e, after), [price], word) <==>
              Scaled(Prose(before, price, e, after), PrintedAs(before, price, e).end, word) || NumberOf(e) == 0
  {
    hide *;
    PrintedAcceptedIff(before, price, e, after, [price], word);
    WholeCents(before, price, cents, e);
    assert [price][0] == price;
  }

  lemma WholeCents(before: string, price: real, cents: nat, e: string)
    requires price * 100.0 == cents as real && Digits(e)
    ensures Near(PrintedAs(before, price, e), price) <==> NumberOf(e) == 0
  {
    hide Near, PrintedAs, NumberOf, Cents, Pow10;
    PrintedNearIff(before, price, e, price);
    CentsOf(price, cents);
    HundredTimes(|e|);
    HalfUnit(price, cents, Pow10(|e|), NumberOf(e));
  }

  lemma HundredTimes(n: nat)
    ensures Pow10(2 + n) == 100 * Pow10(n)
  {
  }

  lemma CentsOf(price: real, cents: nat)
    requires price * 100.0 == cents as real
    ensures Cents(price) == cents
  {
  }

  lemma HalfUnit(price: real, cents: nat, scale: nat, n: nat)
    requires price * 100.0 == cents as real
    ensures -0.5 <= (cents * scale + n) as real - price * (100 * scale) as real <= 0.5 <==> n == 0
  {
    assert (100 * scale) as real == 100.0 * scale as real;
    assert (cents * scale + n) as real == cents as real * scale as real + n as real;
  }

  // ---------- quotes and sums, character by character

  /** At `p` a dollar sign, spaces up to `a`, the whole part up to `b`, and then the rest of `q`, each
      as far as it goes. */
  predicate Reads(text: string, p: nat, a: nat, b: nat, q: Quote) {
    && p < a < b <= |text| && text[p] == '$' && (forall k :: p < k < a ==> IsSpace(text[k]))
    && IsDigit(text[a]) && (forall k :: a <= k < b ==> IsDigit(text[k]) || text[k] == ',')
    && (b < |text| ==> !IsDigit(text[b]) && text[b] != ',')
    && q.whole == text[a..b]
    && if b + 1 < |text| && text[b] == '.' && IsDigit(text[b + 1]) then
         && b + 1 < q.end <= |text| && (forall k :: b < k < q.end ==> IsDigit(text[k]))
         && (q.end < |text| ==> !IsDigit(text[q.end])) && q.decimals == text[b + 1..q.end]
       else q.end == b && q.decimals == ""
  }

  lemma ReadsOnlyThat(text: string, p: nat, a: nat, b: nat, q: Quote)
    requires Reads(text, p, a, b, q)
    ensures QuoteAt(text, p) == Some(q)
  {
    SkipExactly(text, p + 1, a, IsSpace);
    SkipExactly(text, a, b, IsNumeric);
    if b + 1 < |text| && text[b] == '.' && IsDigit(text[b + 1]) {
      SkipExactly(text, b + 1, q.end, IsDigit);
    }
    hide SkipWhile;
  }

  /** What the search finds at `p` is exactly what stands there. */
  lemma QuoteExactly(text: string, p: nat, q: Quote)
    requires p < |text|
    ensures QuoteAt(text, p) == Some(q) <==> exists a: nat, b: nat :: Reads(text, p, a, b, q)
  {
    if QuoteAt(text, p) == Some(q) {
      var a := SkipWhile(text, p + 1, IsSpace);
      var b := SkipWhile(text, a, IsNumeric);
      assert Reads(text, p, a, b, q);
    }
    if a: nat, b: nat :| Reads(text, p, a, b, q) {
      ReadsOnlyThat(text, p, a, b, q);
    }
  }

  /** `w` in any case at `at`; ignoring case, the Turkish dotless and dotted `i` also fold to `i`. */
  predicate Spelled(text: string, at: nat, w: string) {
    && at + |w| <= |text|
    && forall k :: 0 <= k < |w| ==>
         || text[at + k] == w[k] || text[at + k] as int == w[k] as int - 32
         || (w[k] == 'i' && text[at + k] in ['\U{131}', '\U{130}'])
  }

  /** Behind `end`, after spaces, stands the scale word `w`, ending within sixteen characters. */
  predicate ScaledBy(text: string, end: nat, at: nat, w: string, word: char -> bool) {
    && end <= at && Spelled(text, at, w) && at + |w| <= end + 16
    && (forall k :: end <= k < at ==> IsSpace(text[k]))
    && (at + |w| == |text| || at + |w| == end + 16 || !word(text[at + |w|]))
  }

  ghost predicate Followed(text: string, end: nat, w: string, word: char -> bool) {
    exists at: nat :: ScaledBy(text, end, at, w, word)
  }

  predicate LowerWord(w: string) {
    w != "" && forall k :: 0 <= k < |w| ==> 'a' <= w[k] <= 'z'
  }

  lemma SpelledThere(text: string, at: nat, stop: nat, w: string, word: char -> bool)
    requires at <= stop <= |text| && LowerWord(w)
    ensures ScaleWord(text[at..stop], w, word) <==>
              at + |w| <= stop && Spelled(text, at, w) && (at + |w| == stop || !word(text[at + |w|]))
  {
    var s := text[at..stop];
    assert forall k :: 0 <= k < |s| ==> s[k] == text[at + k];
  }

  lemma SpacesEnd(text: string, end: nat, stop: nat, at: nat)
    requires end <= at < stop <= |text| && (forall k :: end <= k < at ==> IsSpace(text[k])) && !IsSpace(text[at])
    ensures SkipWhile(text[end..stop], 0, IsSpace) == at - end
  {
    var s := text[end..stop];
    assert forall k :: 0 <= k < |s| ==> s[k] == text[end + k];
    SkipExactly(s, 0, at - end, IsSpace);
  }

  lemma NoSpace(text: string, at: nat, w: string)
    requires LowerWord(w) && Spelled(text, at, w)
    ensures |w| > 0 && at + |w| <= |text| && !IsSpace(text[at])
  {
    assert 'a' <= w[0] <= 'z' && text[at + 0] == text[at];
  }

  /** One scale word, as the cut suffix has it. */
  lemma WordAt(text: string, end: nat, stop: nat, w: string, word: char -> bool)
    requires end <= stop <= |text| && stop == (if end + 16 <= |text| then end + 16 else |text|) && LowerWord(w)
    ensures ScaleWord(text[end..stop][SkipWhile(text[end..stop], 0, IsSpace)..], w, word) <==>
              Followed(text, end, w, word)
  {
    hide ScaleWord, Spelled, IsSpace, LowerWord;
    var s := text[end..stop];
    var r := SkipWhile(s, 0, IsSpace);
    SpelledThere(text, end + r, stop, w, word);
    assert s[r..] == text[end + r..stop];
    if ScaleWord(s[r..], w, word) {
      forall k | end <= k < end + r ensures IsSpace(text[k]) {
        assert text[k] == s[k - end];
      }
      assert ScaledBy(text, end, end + r, w, word);
    }
    if at: nat :| ScaledBy(text, end, at, w, word) {
      NoSpace(text, at, w);
      SpacesEnd(text, end, stop, at);
    }
  }

  /** A quote counts as a scaled sum exactly when one of the four words follows. */
  lemma ScaledIff(text: string, end: nat, word: char -> bool)
    requires end <= |text|
    ensures Scaled(text, end, word) <==>
              Followed(text, end, "billion", word) || Followed(text, end, "million", word)
              || Followed(text, end, "trillion", word) || Followed(text, end, "bn", word)
  {
    hide ScaleWord, Followed, SkipWhile;
    var stop := if end + 16 <= |text| then end + 16 else |text|;
    WordAt(text, end, stop, "billion", word);
    WordAt(text, end, stop, "million", word);
    WordAt(text, end, stop, "trillion", word);
    WordAt(text, end, stop, "bn", word);
  }

  /** With no other dollar sign about, the verdict is that of the one quote. */
  lemma OneQuote(before: string, shown: string, after: string, observed: seq<real>, word: char -> bool)
    requires '$' !in before && '$' !in after && shown != "" && '$' !in shown[1..]
    ensures Accepts(before + shown + after, observed, word) <==>
              Supported(before + shown + after, |before|, observed, word)
  {
    var text := before + shown + after;
    hide Near, Scaled;
    forall p: nat | p < |text| && p != |before| ensures Supported(text, p, observed, word) {
      if p < |before| {
        assert text[p] == before[p];
      } else if p < |before| + |shown| {
        assert text[p] == shown[1..][p - |before| - 1];
      } else {
        assert text[p] == after[p - |before| - |shown|];
      }
    }
  }

  lemma WholeRead(before: string, blank: string, n: nat, after: string)
    requires Blank(blank)
    requires after != "" ==> !IsDigit(after[0]) && after[0] != ','
    requires |after| > 1 ==> !(after[0] == '.' && IsDigit(after[1]))
    ensures QuoteAt(before + ("$" + blank + Grouped(n)) + after, |before|)
            == Some(Quote(Grouped(n), "", |before| + 1 + |blank| + |Grouped(n)|))
  {
    var g := Grouped(n);
    var text, a := before + ("$" + blank + g) + after, |before| + 1 + |blank|;
    var end := a + |g|;
    hide Grouped, QuoteAt;
    assert text[|before|] == '$' && text[a..end] == g;
    forall k | |before| < k < a ensures IsSpace(text[k]) {
      assert text[k] == blank[k - |before| - 1];
    }
    forall k | a <= k < end ensures text[k] == g[k - a] {}
    assert end < |text| ==> text[end] == after[0];
    assert end + 1 < |text| ==> text[end + 1] == after[1];
    ReadsOnlyThat(text, |before|, a, end, Quote(g, "", end));
  }

  predicate Blank(s: string) {
    forall k :: 0 <= k < |s| ==> s[k] in [' ', '\t', '\n', '\r', '\U{A0}']
  }

  /** Prose that quotes a whole number and nothing else is accepted if and only if a scale word follows
      or the number is within half a unit of an observed price. */
  lemma WholeQuote(before: string, blank: string, n: nat, after: string, observed: seq<real>, word: char -> bool)
    requires '$' !in before && '$' !in after && Blank(blank)
    requires after != "" ==> !IsDigit(after[0]) && after[0] != ','
    requires |after| > 1 ==> !(after[0] == '.' && IsDigit(after[1]))
    ensures var text, end := before + ("$" + blank + Grouped(n)) + after, |before| + 1 + |blank| + |Grouped(n)|;
            Accepts(text, observed, word) <==>
              || Followed(text, end, "billion", word) || Followed(text, end, "million", word)
              || Followed(text, end, "trillion", word) || Followed(text, end, "bn", word)
              || exists k :: 0 <= k < |observed| && -0.5 <= n as real - observed[k] <= 0.5
  {
    var g := Grouped(n);
    var shown := "$" + blank + g;
    var text, end := before + shown + after, |before| + 1 + |blank| + |g|;
    hide Near, Scaled, Followed, Grouped, Accepts, QuoteAt, Supported;
    WholeRead(before, blank, n, after);
    NoDollar(n);
    assert shown[1..] == blank + g;
    OneQuote(before, shown, after, observed, word);
    ScaledIff(text, end, word);
    forall k | 0 <= k < |observed|
      ensures Near(Quote(g, "", end), observed[k]) <==> -0.5 <= n as real - observed[k] <= 0.5
    {
      GroupedNear(n, end, observed[k]);
    }
    SupportedQuote(text, |before|, Quote(g, "", end), observed, word);
  }

  lemma SupportedQuote(text: string, p: nat, q: Quote, observed: seq<real>, word: char -> bool)
    requires p < |text| && QuoteAt(text, p) == Some(q)
    ensures Supported(text, p, observed, word) <==>
              Scaled(text, q.end, word) || exists k :: 0 <= k < |observed| && Near(q, observed[k])
  {
    hide QuoteAt, Scaled, Near;
  }

  lemma NoDollar(n: nat)
    ensures '$' !in Grouped(n)
  {
    hide Grouped;
  }

  lemma GroupedNear(n: nat, end: nat, price: real)
    ensures Near(Quote(Grouped(n), "", end), price) <==> -0.5 <= n as real - price <= 0.5
  {
    GroupedIsNumber(n);
    assert Strip(Grouped(n)) + "" == Strip(Grouped(n));
    assert Pow10(0) == 1;
  }
}
