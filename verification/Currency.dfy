/**
 The amount parser of api/util/currency.go: GetCurrency, which applies one fixed regular expression,
 and GetCoin; and the loop of api/mapper/transfers.go that reads a comma-separated coin list.
 */
module Currency {
  import opened Structs
  import opened Text

  // ---------- the pattern ([0-9.,-]+)\s*([^0-9\s]+)$ ----------

  predicate InAmount(c: char) { IsDigit(c) || c == '.' || c == ',' || c == '-' }

  predicate IsSpace(c: char) { c == ' ' || c == '\t' || c == '\n' || c == '\r' || c as int == 12 }

  predicate InDenom(c: char) { !IsDigit(c) && !IsSpace(c) }

  /** s[i..a] matches the first group, s[a..b] the spaces and s[b..] the second group, up to the end. */
  ghost predicate Matches(s: string, i: nat, a: nat, b: nat) {
    && i < a <= b < |s|
    && (forall k :: i <= k < a ==> InAmount(s[k]))
    && (forall k :: a <= k < b ==> IsSpace(s[k]))
    && (forall k :: b <= k < |s| ==> InDenom(s[k]))
  }

  /** \s* is greedy: the end of the run of spaces from a. */
  function SkipSpaces(s: string, a: nat): (b: nat)
    requires a <= |s|
    ensures a <= b <= |s| && (forall k :: a <= k < b ==> IsSpace(s[k])) && (b < |s| ==> !IsSpace(s[b]))
    decreases |s| - a
  {
    if a < |s| && IsSpace(s[a]) then SkipSpaces(s, a + 1) else a
  }

  /** The end of the run of amount characters from i. */
  function SkipAmount(s: string, i: nat): (a: nat)
    requires i <= |s|
    ensures i <= a <= |s| && (forall k :: i <= k < a ==> InAmount(s[k])) && (a < |s| ==> !InAmount(s[a]))
    decreases |s| - i
  {
    if i < |s| && InAmount(s[i]) then SkipAmount(s, i + 1) else i
  }

  predicate AllDenom(s: string, b: nat) {
    forall k :: b <= k < |s| ==> InDenom(s[k])
  }

  /** What follows position a matches \s*([^0-9\s]+)$. */
  predicate TailMatches(s: string, a: nat)
    requires a <= |s|
  {
    SkipSpaces(s, a) < |s| && AllDenom(s, SkipSpaces(s, a))
  }

  /** The first group is greedy and gives back one character at a time. */
  function Backtrack(s: string, i: nat, a: nat): (r: Option<nat>)
    requires i <= a <= |s|
    ensures r.Some? ==> i < r.value <= a && TailMatches(s, r.value)
    ensures forall a' :: i < a' <= a && TailMatches(s, a') ==> r.Some? && a' <= r.value
  {
    if a == i then None
    else if TailMatches(s, a) then Some(a)
    else Backtrack(s, i, a - 1)
  }

  /** The leftmost start at or after i from which the pattern matches, with the end of the first group. */
  function Search(s: string, i: nat): (r: Option<(nat, nat)>)
    requires i <= |s|
    ensures r.Some? ==> i <= r.value.0 < r.value.1 <= |s|
    decreases |s| - i
  {
    var r := Backtrack(s, i, SkipAmount(s, i));
    if r.Some? then Some((i, r.value))
    else if i == |s| then None
    else Search(s, i + 1)
  }

  /** FindStringSubmatch: the two groups of the match, or nothing. */
  function GetCurrency(s: string): Option<(string, string)> {
    match Search(s, 0)
    case None => None
    case Some((i, a)) => Some((s[i..a], s[SkipSpaces(s, a)..]))
  }

  /** A match determines where its second group starts. */
  lemma MatchTail(s: string, i: nat, a: nat, b: nat)
    requires Matches(s, i, a, b)
    ensures i < a <= |s| && b == SkipSpaces(s, a) && TailMatches(s, a) && a <= SkipAmount(s, i)
  {
    assert InDenom(s[b]);
  }

  /** The amount characters up to a, with a tail that matches, are a match. */
  lemma TailIsMatch(s: string, i: nat, a: nat)
    requires i < a <= |s| && a <= SkipAmount(s, i) && TailMatches(s, a)
    ensures Matches(s, i, a, SkipSpaces(s, a))
  {
  }

  /** Search finds the leftmost match and, among those, the one with the longest first group; it fails
      only when there is no match. */
  lemma {:induction false} SearchIsLeftmostLongest(s: string, i: nat)
    requires i <= |s|
    ensures match Search(s, i)
            case Some((j, a)) =>
              && Matches(s, j, a, SkipSpaces(s, a))
              && (forall j': nat, a': nat, b': nat :: i <= j' && Matches(s, j', a', b') ==>
                    j < j' || (j == j' && a' <= a))
            case None => forall j': nat, a': nat, b': nat :: i <= j' ==> !Matches(s, j', a', b')
    decreases |s| - i
  {
    hide Matches, TailMatches, SkipAmount, SkipSpaces;
    var r := Backtrack(s, i, SkipAmount(s, i));
    if r.Some? { TailIsMatch(s, i, r.value); }
    else if i < |s| { SearchIsLeftmostLongest(s, i + 1); }
    forall j': nat, a': nat, b': nat | i <= j' && Matches(s, j', a', b')
      ensures i < |s| && (j' == i ==> r.Some? && a' <= r.value)
    {
      MatchTail(s, j', a', b');
    }
  }

  /** The second group never contains a digit or a space. */
  lemma CurrencyIsDenom(s: string)
    requires GetCurrency(s).Some?
    ensures GetCurrency(s).value.1 != [] && AllDenom(GetCurrency(s).value.1, 0)
  {
    SearchIsLeftmostLongest(s, 0);
  }

  /** The same, character by character. */
  ghost predicate IsMatch(s: string, i: nat, a: nat, b: nat) {
    && i < a <= b < |s|
    && (forall k :: i <= k < a ==> s[k] in "0123456789.,-")
    && (forall k :: a <= k < b ==> s[k] in " \t\n\r" || s[k] as int == 12)
    && (forall k :: b <= k < |s| ==> s[k] !in "0123456789 \t\n\r" && s[k] as int != 12)
  }

  /** The character classes of the pattern. */
  lemma ClassesAre(c: char)
    ensures InAmount(c) <==> c in "0123456789.,-"
    ensures IsSpace(c) <==> c in " \t\n\r" || c as int == 12
    ensures InDenom(c) <==> c !in "0123456789 \t\n\r" && c as int != 12
  {
    DigitsAre(c);
    assert "0123456789.,-" == "0123456789" + ".,-" && "0123456789 \t\n\r" == "0123456789" + " \t\n\r";
    assert ".,-" == ['.', ',', '-'] && " \t\n\r" == [' ', '\t', '\n', '\r'];
  }

  lemma DigitsAre(c: char)
    ensures IsDigit(c) <==> c in "0123456789"
  {
    var d := "0123456789";
    if IsDigit(c) { assert c == d[c as int - '0' as int]; }
  }

  /** A match in terms of the classes. */
  lemma MatchClasses(s: string, i: nat, a: nat, b: nat)
    ensures IsMatch(s, i, a, b) <==> Matches(s, i, a, b)
  {
    hide InAmount, IsSpace, InDenom;
    forall c: char
      ensures (InAmount(c) <==> c in "0123456789.,-") && (IsSpace(c) <==> c in " \t\n\r" || c as int == 12)
      ensures InDenom(c) <==> c !in "0123456789 \t\n\r" && c as int != 12
    {
      ClassesAre(c);
    }
  }

  /** The match that FindStringSubmatch reports: the leftmost, and among those the one with the longest first group. */
  ghost predicate BestMatch(s: string, i: nat, a: nat, b: nat) {
    && i < a <= b < |s| && IsMatch(s, i, a, b)
    && forall j: nat, a': nat, b': nat :: IsMatch(s, j, a', b') ==> i < j || (i == j && a' <= a)
  }

  lemma MatchRange(s: string, i: nat, a: nat, b: nat)
    requires IsMatch(s, i, a, b)
    ensures i < a <= b < |s|
  {
  }

  /** GetCurrency gives the two groups of the best match, and nothing only if there is no match at all. */
  lemma GetCurrencyIs(s: string)
    ensures match GetCurrency(s)
            case Some((x, y)) => exists i: nat, a: nat, b: nat :: BestMatch(s, i, a, b) && x == s[i..a] && y == s[b..]
            case None => forall i: nat, a: nat, b: nat :: !IsMatch(s, i, a, b)
  {
    hide Matches, IsMatch;
    SearchIsLeftmostLongest(s, 0);
    forall i: nat, a: nat, b: nat ensures IsMatch(s, i, a, b) <==> Matches(s, i, a, b) { MatchClasses(s, i, a, b); }
    if Search(s, 0).Some? {
      var (i, a) := Search(s, 0).value;
      MatchRange(s, i, a, SkipSpaces(s, a));
      assert BestMatch(s, i, a, SkipSpaces(s, a));
    }
  }

  // ---------- GetCoin ----------

  /** big.Int.SetString in base 10: an optional sign and at least one digit.  On anything else Go leaves
      the number unspecified, here None. */
  function SetString(s: string): Option<int> {
    var digits := if s != [] && (s[0] == '-' || s[0] == '+') then s[1..] else s;
    if digits == [] || !AllDigits(digits) then None
    else if s[0] == '-' then Some(-(NatValue(digits) as int)) else Some(NatValue(digits))
  }

  function CommasToDots(s: string): string {
    seq(|s|, i requires 0 <= i < |s| => if s[i] == ',' then '.' else s[i])
  }

  /** The conversion int32(len(...)). */
  function Int32(n: nat): int {
    var m := n % 0x1_0000_0000;
    if m < 0x8000_0000 then m else m - 0x1_0000_0000
  }

  datatype Coin = Coin(number: Option<int>, exp: int)

  function GetCoin(s: string): Result<Coin> {
    var parts := Split(CommasToDots(s), '.');
    if |parts| == 1 then Ok(Coin(SetString(parts[0]), 0))
    else if |parts| == 2 then Ok(Coin(SetString(parts[0] + parts[1]), Int32(|parts[1]|)))
    else Err("Impossible to parse ")
  }

  predicate IsSign(sign: string) { sign == "" || sign == "-" || sign == "+" }

  function Signed(sign: string, n: nat): int { if sign == "-" then -(n as int) else n }

  lemma SetStringSigned(sign: string, digits: string)
    requires IsSign(sign) && AllDigits(digits) && digits != []
    ensures SetString(sign + digits) == Some(Signed(sign, NatValue(digits)))
  {
    hide NatValue;
    if sign == "" { assert sign + digits == digits; } else { assert (sign + digits)[1..] == digits; }
  }

  lemma SplitDecimal(x: string, sep: char, b: string)
    requires (sep == '.' || sep == ',') && '.' !in x && ',' !in x && AllDigits(b)
    ensures Split(CommasToDots(x + [sep] + b), '.') == [x, b]
    ensures Split(CommasToDots(x), '.') == [x]
  {
    assert CommasToDots(x) == x;
    assert CommasToDots(x + [sep] + b) == x + ['.'] + b;
    SplitHead(x, '.', b);
    SplitHead(b, '.', []);
  }

  lemma TwoParts(s: string, x: string, y: string)
    requires Split(CommasToDots(s), '.') == [x, y] && |y| < 0x8000_0000
    ensures GetCoin(s) == Ok(Coin(SetString(x + y), |y|))
  {
  }

  lemma Assoc(x: string, y: string, z: string)
    ensures (x + y) + z == x + (y + z)
  {
  }

  lemma NoSeparator(sign: string, a: string)
    requires IsSign(sign) && AllDigits(a)
    ensures '.' !in sign + a && ',' !in sign + a
  {
  }

  lemma GetCoinReads(sign: string, a: string, sep: char, b: string, digits: string)
    requires IsSign(sign) && AllDigits(a) && AllDigits(b) && digits == a + b && digits != [] && AllDigits(digits)
    requires (sep == '.' || sep == ',') && |b| < 0x8000_0000
    ensures GetCoin(sign + a + [sep] + b) == Ok(Coin(Some(Signed(sign, NatValue(digits))), |b|))
  {
    NoSeparator(sign, a);
    var x := sign + a;
    SplitDecimal(x, sep, b);
    SetStringSigned(sign, digits);
    TwoParts(x + [sep] + b, x, b);
    Assoc(sign, a, b);
  }

  /** Decimal exactness: a signed decimal with integer digits a and fraction digits b, written with a dot
      or a comma, is read as a * 10^|b| + b with exponent |b|, so nothing is lost. */
  lemma GetCoinIsExact(sign: string, a: string, sep: char, b: string, scaled: nat)
    requires IsSign(sign) && AllDigits(a) && AllDigits(b) && a + b != [] && (sep == '.' || sep == ',')
    requires |b| < 0x8000_0000
    requires scaled == NatValue(a) * Pow10(|b|) + NatValue(b)
    ensures GetCoin(sign + a + [sep] + b) == Ok(Coin(Some(Signed(sign, scaled)), |b|))
  {
    var digits := a + b;
    assert AllDigits(digits) && NatValue(digits) == scaled by { ConcatValue(a, b); }
    GetCoinReads(sign, a, sep, b, digits);
  }

  lemma GetCoinReadsInteger(sign: string, a: string)
    requires IsSign(sign) && AllDigits(a) && a != []
    ensures GetCoin(sign + a) == Ok(Coin(Some(Signed(sign, NatValue(a))), 0))
  {
    NoSeparator(sign, a);
    SplitDecimal(sign + a, '.', []);
    SetStringSigned(sign, a);
  }

  predicate IsSeparator(c: char) { c == '.' || c == ',' }

  /** v is the number that s reads as: s is an optional sign and at least one digit, and nothing else reads as a
      number. */
  ghost predicate ReadsAs(s: string, v: Option<int>) {
    match v
    case Some(n) =>
      exists sign, digits ::
        && sign in {"", "-", "+"} && digits != [] && AllDigits(digits) && s == sign + digits
        && n == if sign == "-" then -(NatValue(digits) as int) else NatValue(digits)
    case None =>
      forall sign, digits :: sign in {"", "-", "+"} && digits != [] && AllDigits(digits) ==> s != sign + digits
  }

  lemma SetStringIs(s: string)
    ensures ReadsAs(s, SetString(s))
  {
    hide NatValue;
    var n := if s != [] && (s[0] == '-' || s[0] == '+') then 1 else 0;
    var sign, digits := s[..n], s[n..];
    assert s == sign + digits;
    if SetString(s).Some? {
      assert IsSign(sign) && digits != [] && AllDigits(digits) && SetString(s).value == Signed(sign, NatValue(digits));
    } else {
      forall sign', digits' | IsSign(sign') && digits' != [] && AllDigits(digits') ensures s != sign' + digits' {
        SetStringSigned(sign', digits');
      }
    }
  }

  /** Position k is the only separator of s. */
  ghost predicate OneSeparator(s: string, k: nat) {
    k < |s| && IsSeparator(s[k]) && forall j :: 0 <= j < |s| && j != k ==> !IsSeparator(s[j])
  }

  ghost predicate TwoSeparators(s: string) {
    exists j, k :: 0 <= j < k < |s| && IsSeparator(s[j]) && IsSeparator(s[k])
  }

  /** What s reads as: without a separator a number; with one the number that its digits together are, and as exponent
      the count of digits after the separator, as an int32. */
  ghost predicate NumberMeans(s: string, v: Option<int>, exp: int) {
    || ((forall k :: 0 <= k < |s| ==> !IsSeparator(s[k])) && ReadsAs(s, v) && exp == 0)
    || (exists k: nat :: OneSeparator(s, k) && ReadsAs(s[..k] + s[k + 1..], v)
          && -0x8000_0000 <= exp < 0x8000_0000 && (|s| - k - 1 - exp) % 0x1_0000_0000 == 0)
  }

  lemma CountTwo(s: string, j: nat, k: nat, c: char)
    requires j < k < |s| && s[j] == c && s[k] == c
    ensures Count(s, c) >= 2
  {
    assert s == s[..k] + s[k..];
    CountConcat(s[..k], s[k..], c);
    CountZero(s[..k], c);
    CountZero(s[k..], c);
    assert s[..k][j] == c && s[k..][0] == c;
  }

  lemma GetCoinOne(s: string, k: nat)
    requires OneSeparator(s, k)
    ensures GetCoin(s).Ok? && NumberMeans(s, GetCoin(s).value.number, GetCoin(s).value.exp)
  {
    hide SetString, ReadsAs;
    var t, x, y := CommasToDots(s), s[..k], s[k + 1..];
    assert t == x + ['.'] + y;
    SplitHead(x, '.', y);
    SplitHead(y, '.', []);
    SetStringIs(x + y);
    Int32Is(|y|);
  }

  lemma GetCoinTwo(s: string)
    requires TwoSeparators(s)
    ensures GetCoin(s) == Err("Impossible to parse ")
  {
    var t := CommasToDots(s);
    var j, k :| 0 <= j < k < |s| && IsSeparator(s[j]) && IsSeparator(s[k]);
    CountTwo(t, j, k, '.');
    SplitLength(t, '.');
  }

  /** GetCoin, exactly: with two separators or more it fails, otherwise it gives what the string reads as. */
  lemma GetCoinExactly(s: string)
    ensures TwoSeparators(s) ==> GetCoin(s) == Err("Impossible to parse ")
    ensures !TwoSeparators(s) ==> GetCoin(s).Ok? && NumberMeans(s, GetCoin(s).value.number, GetCoin(s).value.exp)
  {
    hide SetString, ReadsAs;
    if TwoSeparators(s) {
      GetCoinTwo(s);
    } else if k: nat :| k < |s| && IsSeparator(s[k]) {
      hide GetCoin, NumberMeans;
      assert OneSeparator(s, k);
      GetCoinOne(s, k);
    } else {
      assert CommasToDots(s) == s;
      SplitHead(s, '.', []);
      SetStringIs(s);
    }
  }

  lemma Int32Is(n: nat)
    ensures -0x8000_0000 <= Int32(n) < 0x8000_0000 && (n - Int32(n)) % 0x1_0000_0000 == 0
  {
  }

  /** GetCoin rejects exactly the strings with two or more separators. */
  lemma GetCoinFails(s: string)
    ensures GetCoin(s).Err? <==> TwoSeparators(s)
  {
    hide TwoSeparators;
    GetCoinExactly(s);
  }

  // ---------- one coin, and a list of coins ----------

  datatype Amount = Amount(text: string, currency: string, numeric: Option<int>, exp: int)

  function ParseError(amt: string, e: string): string {
    "[COSMOS-API] Error parsing amount '" + amt + "': " + e + " "
  }

  /** The body of the loop over the pieces of an amount attribute. */
  function ParseAmount(amt: string): Result<Amount> {
    var sliced := GetCurrency(amt);
    var currency := if sliced.Some? then sliced.value.1 else "";
    match GetCoin(if sliced.Some? then sliced.value.0 else amt)
    case Err(e) => Err(ParseError(amt, e))
    case Ok(coin) => Ok(Amount(amt, currency, coin.number, coin.exp))
  }

  function ParseAll(pieces: seq<string>): Result<seq<Amount>> {
    if pieces == [] then Ok([])
    else match ParseAmount(pieces[0])
      case Err(e) => Err(e)
      case Ok(a) =>
        match ParseAll(pieces[1..])
        case Err(e) => Err(e)
        case Ok(rest) => Ok([a] + rest)
  }

  function ParseCoins(value: string): Result<seq<Amount>> { ParseAll(Split(value, ',')) }

  // ---------- what a piece and a list of pieces mean ----------

  /** The amount of a piece, given the part with its number and its currency; the text is the piece itself. */
  ghost predicate CoinMeans(piece: string, number: string, currency: string, r: Result<Amount>) {
    if TwoSeparators(number) then r == Err("[COSMOS-API] Error parsing amount '" + piece + "': Impossible to parse  ")
    else exists v, exp :: NumberMeans(number, v, exp) && r == Ok(Amount(piece, currency, v, exp))
  }

  /** The amount of a piece: number and currency are the groups of the best match, or, if there is no match, the whole
      piece and no currency. */
  ghost predicate AmountMeans(piece: string, r: Result<Amount>) {
    || (exists i: nat, a: nat, b: nat :: BestMatch(piece, i, a, b) && CoinMeans(piece, piece[i..a], piece[b..], r))
    || ((forall i: nat, a: nat, b: nat :: !IsMatch(piece, i, a, b)) && CoinMeans(piece, piece, "", r))
  }

  lemma ErrorText(amt: string)
    ensures ParseError(amt, "Impossible to parse ")
              == "[COSMOS-API] Error parsing amount '" + amt + "': Impossible to parse  "
  {
    assert "': " + "Impossible to parse " + " " == "': Impossible to parse  ";
  }

  lemma ParseAmountIs(piece: string)
    ensures AmountMeans(piece, ParseAmount(piece))
  {
    hide GetCurrency, GetCoin, IsMatch, TwoSeparators, NumberMeans, ParseError;
    GetCurrencyIs(piece);
    ErrorText(piece);
    var sliced := GetCurrency(piece);
    if sliced.Some? {
      var i: nat, a: nat, b: nat :|
        BestMatch(piece, i, a, b) && sliced.value.0 == piece[i..a] && sliced.value.1 == piece[b..];
      GetCoinExactly(piece[i..a]);
      assert CoinMeans(piece, piece[i..a], piece[b..], ParseAmount(piece));
    } else {
      GetCoinExactly(piece);
      assert CoinMeans(piece, piece, "", ParseAmount(piece));
    }
  }

  /** The amounts of a list of pieces: one for each, in order, or the error of the first piece that has none. */
  ghost predicate PiecesMean(pieces: seq<string>, r: Result<seq<Amount>>) {
    match r
    case Ok(amounts) =>
      |amounts| == |pieces| && forall i :: 0 <= i < |pieces| ==> AmountMeans(pieces[i], Ok(amounts[i]))
    case Err(e) =>
      exists i :: 0 <= i < |pieces| && AmountMeans(pieces[i], Err(e))
        && forall j :: 0 <= j < i ==> exists a :: AmountMeans(pieces[j], Ok(a))
  }

  /** The amounts of an attribute are those of its comma-separated pieces. */
  ghost predicate AmountsMean(value: string, r: Result<seq<Amount>>) {
    exists pieces :: pieces != [] && Without(pieces, ',') && Join(pieces, ',') == value && PiecesMean(pieces, r)
  }

  lemma {:induction false} ParseAllIs(pieces: seq<string>)
    ensures PiecesMean(pieces, ParseAll(pieces))
  {
    hide AmountMeans, ParseAmount;
    if pieces != [] {
      ParseAmountIs(pieces[0]);
      ParseAllIs(pieces[1..]);
      var first, rest, all := ParseAmount(pieces[0]), ParseAll(pieces[1..]), ParseAll(pieces);
      if first.Err? {
        assert AmountMeans(pieces[0], Err(all.error));
      } else if rest.Err? {
        var i :| 0 <= i < |pieces[1..]| && AmountMeans(pieces[1..][i], Err(rest.error))
          && forall j :: 0 <= j < i ==> exists a :: AmountMeans(pieces[1..][j], Ok(a));
        forall j | 0 <= j < i + 1 ensures exists a :: AmountMeans(pieces[j], Ok(a)) {
          if j == 0 { assert AmountMeans(pieces[0], Ok(first.value)); } else { assert pieces[j] == pieces[1..][j - 1]; }
        }
        assert AmountMeans(pieces[i + 1], Err(all.error));
      } else {
        forall i | 0 <= i < |pieces| ensures AmountMeans(pieces[i], Ok(all.value[i])) {
          if i > 0 { assert pieces[i] == pieces[1..][i - 1] && all.value[i] == rest.value[i - 1]; }
        }
      }
    }
  }

  lemma ParseCoinsIs(value: string)
    ensures AmountsMean(value, ParseCoins(value))
  {
    hide PiecesMean, Without, Join;
    JoinSplit(value, ',');
    ParseAllIs(Split(value, ','));
  }

  datatype SdkCoin = SdkCoin(amount: nat, denom: string)

  /** sdk.Coin.String */
  function PrintCoin(c: SdkCoin): string { Itoa(c.amount) + c.denom }

  /** sdk.Coins.String */
  function PrintCoins(cs: seq<SdkCoin>): string {
    Join(seq(|cs|, i requires 0 <= i < |cs| => PrintCoin(cs[i])), ',')
  }

  /** The parsed amount is the coin that was printed. */
  predicate Same(a: Amount, c: SdkCoin) {
    a.text == PrintCoin(c) && a.currency == c.denom && a.numeric == Some(c.amount) && a.exp == 0
  }

  /** The denominations the parser reads back: none at all, or no digit and no space, and not starting
      with a character the amount could also claim unless that is the whole denomination. */
  predicate ReadableDenom(d: string) {
    d == "" || (AllDenom(d, 0) && (|d| == 1 || !InAmount(d[0])))
  }

  lemma DigitsOnly(s: string)
    requires AllDigits(s) && s != []
    ensures GetCurrency(s).None? && GetCoin(s) == Ok(Coin(Some(NatValue(s)), 0))
  {
    SearchIsLeftmostLongest(s, 0);
    assert forall k :: 0 <= k < |s| ==> !InDenom(s[k]);
    SplitDecimal(s, '.', []);
    SetStringSigned("", s);
    assert "" + s == s;
  }

  /** On digits followed by a denomination the match takes in all the digits. */
  lemma MatchFromStart(n: string, d: string)
    requires AllDigits(n) && n != [] && d != "" && AllDenom(d, 0)
    ensures var s := n + d;
            var r := Search(s, 0);
            && r.Some? && r.value.0 == 0 && |n| <= r.value.1
            && (|d| >= 2 && InAmount(d[0]) ==> |n| < r.value.1)
            && (|d| == 1 || !InAmount(d[0]) ==> r.value.1 == |n|)
  {
    var s := n + d;
    SearchIsLeftmostLongest(s, 0);
    assert Matches(s, 0, |n|, |n|);
    if |d| >= 2 && InAmount(d[0]) { assert Matches(s, 0, |n| + 1, |n| + 1); }
    var a := Search(s, 0).value.1;
    if |n| < a { assert s[|n|] == d[0] && InAmount(s[|n|]); }
  }

  lemma ReadBack(n: string, d: string)
    requires AllDigits(n) && n != [] && d != "" && ReadableDenom(d)
    ensures GetCurrency(n + d) == Some((n, d))
  {
    MatchFromStart(n, d);
    var s := n + d;
    assert s[|n|] == d[0];
    assert SkipSpaces(s, |n|) == |n|;
    assert s[0..|n|] == n && s[|n|..] == d;
  }

  lemma NotReadBack(n: string, d: string)
    requires AllDigits(n) && n != [] && !ReadableDenom(d)
    ensures GetCurrency(n + d).Some? ==> GetCurrency(n + d).value.1 != d
  {
    var s := n + d;
    if GetCurrency(s).Some? {
      CurrencyIsDenom(s);
      if AllDenom(d, 0) {
        MatchFromStart(n, d);
        assert |GetCurrency(s).value.1| <= |s| - Search(s, 0).value.1 < |d|;
      }
    }
  }

  /** One printed coin is read back exactly when its denomination is readable. */
  lemma CoinRoundTrip(c: SdkCoin)
    ensures var r := ParseAmount(PrintCoin(c));
            (r.Ok? && Same(r.value, c)) <==> ReadableDenom(c.denom)
  {
    var n := Itoa(c.amount);
    ItoaValue(c.amount);
    DigitsOnly(n);
    if c.denom == "" {
      assert n + c.denom == n;
    } else if ReadableDenom(c.denom) {
      ReadBack(n, c.denom);
    } else {
      NotReadBack(n, c.denom);
    }
  }

  ghost predicate AllSame(amounts: seq<Amount>, cs: seq<SdkCoin>) {
    |amounts| == |cs| && forall i :: 0 <= i < |cs| ==> Same(amounts[i], cs[i])
  }

  lemma {:induction false} ParseAllLength(pieces: seq<string>)
    ensures ParseAll(pieces).Ok? ==> |ParseAll(pieces).value| == |pieces|
  {
    if pieces != [] { ParseAllLength(pieces[1..]); }
  }

  ghost predicate AllReadable(cs: seq<SdkCoin>) {
    forall i :: 0 <= i < |cs| ==> ReadableDenom(cs[i].denom)
  }

  lemma ReadableCons(cs: seq<SdkCoin>)
    requires cs != []
    ensures AllReadable(cs) <==> ReadableDenom(cs[0].denom) && AllReadable(cs[1..])
  {
    assert forall i :: 1 <= i < |cs| ==> cs[i] == cs[1..][i - 1];
  }

  lemma SameCons(a: Amount, rest: seq<Amount>, cs: seq<SdkCoin>)
    requires cs != []
    ensures AllSame([a] + rest, cs) <==> Same(a, cs[0]) && AllSame(rest, cs[1..])
  {
    var all := [a] + rest;
    if AllSame(all, cs) {
      forall i | 0 <= i < |cs| - 1 ensures Same(rest[i], cs[1..][i]) { assert Same(all[i + 1], cs[i + 1]); }
    } else if Same(a, cs[0]) && AllSame(rest, cs[1..]) {
      forall i | 0 <= i < |cs| ensures Same(all[i], cs[i]) { if i > 0 { assert Same(rest[i - 1], cs[1..][i - 1]); } }
    }
  }

  lemma {:induction false} ParsePrinted(cs: seq<SdkCoin>, pieces: seq<string>)
    requires |pieces| == |cs| && forall i :: 0 <= i < |cs| ==> pieces[i] == PrintCoin(cs[i])
    ensures (ParseAll(pieces).Ok? && AllSame(ParseAll(pieces).value, cs)) <==> AllReadable(cs)
  {
    if cs != [] {
      CoinRoundTrip(cs[0]);
      ParsePrinted(cs[1..], pieces[1..]);
      ReadableCons(cs);
      var a, rest := ParseAmount(pieces[0]), ParseAll(pieces[1..]);
      if a.Ok? && rest.Ok? { SameCons(a.value, rest.value, cs); }
    }
  }

  /** A printed coin list is read back, in order, exactly when it is not empty and every denomination is
      readable and free of commas. */
  lemma CoinListRoundTrip(cs: seq<SdkCoin>)
    ensures var r := ParseCoins(PrintCoins(cs));
            (r.Ok? && AllSame(r.value, cs))
            <==> cs != [] && AllReadable(cs) && forall i :: 0 <= i < |cs| ==> ',' !in cs[i].denom
  {
    var parts := seq(|cs|, i requires 0 <= i < |cs| => PrintCoin(cs[i]));
    ParseAllLength(Split(PrintCoins(cs), ','));
    forall i | 0 <= i < |cs| ensures ',' in parts[i] <==> ',' in cs[i].denom { }
    if cs != [] {
      if Without(parts, ',') {
        SplitJoin(parts, ',');
        ParsePrinted(cs, parts);
      } else {
        JoinCount(parts, ',');
      }
    }
  }
}
