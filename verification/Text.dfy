/** Decimal numerals, and the splitting and joining of strings that the parsers rely on. */
module Text {
  import opened Structs

  predicate IsDigit(c: char) { '0' <= c <= '9' }

  predicate AllDigits(s: string) { forall i :: 0 <= i < |s| ==> IsDigit(s[i]) }

  function DigitValue(c: char): nat
    requires IsDigit(c)
  {
    (c as int) - ('0' as int)
  }

  function Pow10(n: nat): (p: nat)
    ensures p > 0
  {
    if n == 0 then 1 else 10 * Pow10(n - 1)
  }

  /** The value of a string of digits, most significant first; leading zeros count for nothing. */
  function NatValue(s: string): nat
    requires AllDigits(s)
  {
    if s == [] then 0 else NatValue(s[..|s| - 1]) * 10 + DigitValue(s[|s| - 1])
  }

  /** strconv.Itoa on a non-negative number. */
  function Itoa(n: nat): (s: string)
    ensures s != [] && AllDigits(s)
  {
    var last := [('0' as int + n % 10) as char];
    if n < 10 then last else Itoa(n / 10) + last
  }

  /** Printing and reading a number are inverse. */
  lemma {:induction false} ItoaValue(n: nat)
    ensures NatValue(Itoa(n)) == n
  {
    var s := Itoa(n);
    if n >= 10 {
      ItoaValue(n / 10);
      assert s[..|s| - 1] == Itoa(n / 10);
    } else {
      assert s[..|s| - 1] == [];
    }
  }

  lemma ItoaExample()
    ensures Itoa(1907) == "1907"
  {
    assert Itoa(1) == "1" && Itoa(19) == "19" && Itoa(190) == "190";
  }

  /** A printed number has no leading zero. */
  lemma {:induction false} ItoaLeads(n: nat)
    ensures Itoa(n)[0] == '0' <==> n == 0
  {
    if n >= 10 { ItoaLeads(n / 10); }
  }

  /** Writing b's digits after a's shifts a by |b| places. */
  lemma {:induction false} ConcatValue(a: string, b: string)
    requires AllDigits(a) && AllDigits(b)
    ensures AllDigits(a + b) && NatValue(a + b) == NatValue(a) * Pow10(|b|) + NatValue(b)
  {
    if b == [] {
      assert a + b == a;
    } else {
      var b' := b[..|b| - 1];
      ConcatValue(a, b');
      assert (a + b)[..|a + b| - 1] == a + b';
      calc {
        NatValue(a + b);
        NatValue(a + b') * 10 + DigitValue(b[|b| - 1]);
        (NatValue(a) * Pow10(|b'|) + NatValue(b')) * 10 + DigitValue(b[|b| - 1]);
        NatValue(a) * Pow10(|b'|) * 10 + NatValue(b);
        { assert Pow10(|b|) == 10 * Pow10(|b'|); Shift(NatValue(a), Pow10(|b'|)); }
        NatValue(a) * Pow10(|b|) + NatValue(b);
      }
    }
  }

  lemma Shift(x: nat, p: nat)
    ensures x * p * 10 == x * (10 * p)
  {
  }

  // ---------- strings.Split and strings.Join with a one-character separator ----------

  function Split(s: string, sep: char): (parts: seq<string>)
    ensures parts != []
  {
    if s == [] then [[]]
    else
      var rest := Split(s[1..], sep);
      if s[0] == sep then [[]] + rest else [[s[0]] + rest[0]] + rest[1..]
  }

  function Join(parts: seq<string>, sep: char): string {
    if parts == [] then []
    else if |parts| == 1 then parts[0]
    else parts[0] + [sep] + Join(parts[1..], sep)
  }

  function Count(s: string, c: char): nat {
    if s == [] then 0 else (if s[0] == c then 1 else 0) + Count(s[1..], c)
  }

  lemma {:induction false} SplitLength(s: string, sep: char)
    ensures |Split(s, sep)| == 1 + Count(s, sep)
  {
    if s != [] { SplitLength(s[1..], sep); }
  }

  lemma {:induction false} CountZero(s: string, c: char)
    ensures Count(s, c) == 0 <==> c !in s
  {
    if s != [] {
      CountZero(s[1..], c);
      assert s == [s[0]] + s[1..];
    }
  }

  lemma {:induction false} CountConcat(a: string, b: string, c: char)
    ensures Count(a + b, c) == Count(a, c) + Count(b, c)
  {
    if a == [] { assert a + b == b; } else {
      CountConcat(a[1..], b, c);
      assert (a + b)[1..] == a[1..] + b;
    }
  }

  /** Splitting a part without the separator in front of a separator takes that part off. */
  lemma {:induction false} SplitHead(part: string, sep: char, rest: string)
    requires sep !in part
    ensures Split(part + [sep] + rest, sep) == [part] + Split(rest, sep)
    ensures Split(part, sep) == [part]
  {
    var s := part + [sep] + rest;
    if part == [] {
      assert s[1..] == rest;
    } else {
      SplitHead(part[1..], sep, rest);
      assert s[1..] == part[1..] + [sep] + rest;
      assert part == [part[0]] + part[1..];
      assert sep !in part[1..];
    }
  }

  ghost predicate Without(parts: seq<string>, sep: char) {
    forall i :: 0 <= i < |parts| ==> sep !in parts[i]
  }

  /** Split undoes Join on parts that do not contain the separator. */
  lemma {:induction false} SplitJoin(parts: seq<string>, sep: char)
    requires parts != [] && Without(parts, sep)
    ensures Split(Join(parts, sep), sep) == parts
  {
    if |parts| == 1 {
      SplitHead(parts[0], sep, []);
      assert [parts[0]] == parts;
    } else {
      SplitJoin(parts[1..], sep);
      SplitHead(parts[0], sep, Join(parts[1..], sep));
      assert parts[0] + [sep] + Join(parts[1..], sep) == Join(parts, sep);
    }
  }

  /** The pieces of a string have no separator in them, and joining them gives the string back. */
  lemma {:induction false} JoinSplit(s: string, sep: char)
    ensures Without(Split(s, sep), sep) && Join(Split(s, sep), sep) == s
  {
    if s != [] {
      var rest := Split(s[1..], sep);
      JoinSplit(s[1..], sep);
      assert s == [s[0]] + s[1..];
      if s[0] == sep {
        assert Split(s, sep)[1..] == rest;
      } else {
        assert Split(s, sep) == [[s[0]] + rest[0]] + rest[1..];
        assert Split(s, sep)[1..] == rest[1..];
      }
    }
  }

  /** Each separator inside a part adds a piece. */
  lemma {:induction false} JoinCount(parts: seq<string>, sep: char)
    requires parts != []
    ensures |Split(Join(parts, sep), sep)| >= |parts|
    ensures !Without(parts, sep) ==> |Split(Join(parts, sep), sep)| > |parts|
  {
    SplitLength(Join(parts, sep), sep);
    CountZero(parts[0], sep);
    if |parts| > 1 {
      JoinCount(parts[1..], sep);
      SplitLength(Join(parts[1..], sep), sep);
      CountConcat(parts[0], [sep] + Join(parts[1..], sep), sep);
      CountConcat([sep], Join(parts[1..], sep), sep);
      assert parts[0] + [sep] + Join(parts[1..], sep) == parts[0] + ([sep] + Join(parts[1..], sep));
      assert Count([sep], sep) == 1 by { assert [sep][1..] == []; }
      assert forall i :: 1 <= i < |parts| ==> parts[i] == parts[1..][i - 1];
    }
  }
}
