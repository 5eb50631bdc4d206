/** The text routines of the Go standard library that the loader relies on: decimal numbers, booleans,
    trimming and comma-separated lists. */
module Text {
  import opened Prelude

  // ---- Decimal numbers ----

  function Digit(n: nat): (c: char)
    requires n < 10
    ensures c as int == '0' as int + n
  {
    ['0', '1', '2', '3', '4', '5', '6', '7', '8', '9'][n]
  }

  function DigitValue(c: char): Option<nat> {
    if '0' <= c <= '9' then Some(c as nat - '0' as nat) else None
  }

  lemma DigitRoundTrip(n: nat)
    requires n < 10
    ensures DigitValue(Digit(n)) == Some(n)
  {
  }

  function Decimal(n: nat): (s: string)
    ensures |s| >= 1 && ':' !in s
  {
    if n < 10 then [Digit(n)] else Decimal(n / 10) + [Digit(n % 10)]
  }

  lemma DecimalInjective(m: nat, n: nat)
    requires Decimal(m) == Decimal(n)
    ensures m == n
  {
    ValueOfDecimal(m);
    ValueOfDecimal(n);
  }

  function Value(s: string): Option<nat> {
    if s == [] then Some(0)
    else
      var hi, lo := Value(s[..|s| - 1]), DigitValue(s[|s| - 1]);
      if hi.Some? && lo.Some? then Some(hi.value * 10 + lo.value) else None
  }

  lemma {:induction false} ValueOfDecimal(n: nat)
    ensures Value(Decimal(n)) == Some(n)
  {
    var s := Decimal(n);
    DigitRoundTrip(n % 10);
    if n >= 10 {
      ValueOfDecimal(n / 10);
      assert s[..|s| - 1] == Decimal(n / 10);
    } else {
      assert s[..0] == [];
    }
  }

  predicate AllDigits(s: string) {
    forall i :: 0 <= i < |s| ==> '0' <= s[i] <= '9'
  }

  /** A text has a value exactly when it is all digits. */
  lemma {:induction false} ValueOfDigits(s: string)
    ensures Value(s).Some? <==> AllDigits(s)
  {
    if s != [] {
      var n := |s| - 1;
      ValueOfDigits(s[..n]);
      assert s == s[..n] + [s[n]];
    }
  }

  /** A leading zero does not count. */
  lemma {:induction false} LeadingZero(s: string)
    ensures Value("0" + s) == Value(s)
  {
    var t := "0" + s;
    if s == [] {
      assert t[..0] == [] && t[0] == '0';
    } else {
      LeadingZero(s[..|s| - 1]);
      assert t[..|t| - 1] == "0" + s[..|s| - 1];
    }
  }

  /** The number whose decimal is that of `v` with one more digit. */
  function Append(v: nat, c: char): nat
    requires '0' <= c <= '9'
  {
    v * 10 + (c as nat - '0' as nat)
  }

  lemma AppendDecimal(v: nat, c: char)
    requires v >= 1 && '0' <= c <= '9'
    ensures Decimal(Append(v, c)) == Decimal(v) + [c] && Append(v, c) >= 1
  {
    var d := c as nat - '0' as nat;
    var n := v * 10 + d;
    assert n / 10 == v && n % 10 == d;
    assert Digit(d) == c;
  }

  lemma AppendValue(s: string, c: char, v: nat)
    requires Value(s) == Some(v) && '0' <= c <= '9'
    ensures Value(s + [c]) == Some(Append(v, c))
  {
    assert (s + [c])[..|s|] == s;
  }

  /** The text is the decimal of its value. */
  ghost predicate IsDecimal(s: string) {
    Value(s).Some? && Decimal(Value(s).value) == s
  }

  lemma OneDigit(c: char)
    requires '0' <= c <= '9'
    ensures IsDecimal([c]) && (c != '0' ==> Value([c]).value >= 1)
  {
    assert Value([]) == Some(0);
    AppendValue([], c, 0);
    assert [] + [c] == [c];
    assert Digit(Append(0, c)) == c;
  }

  lemma MoreDigits(s: string, c: char)
    requires '0' <= c <= '9' && IsDecimal(s) && Value(s).value >= 1
    ensures IsDecimal(s + [c]) && Value(s + [c]).value >= 1
  {
    AppendValue(s, c, Value(s).value);
    AppendDecimal(Value(s).value, c);
  }

  /** Without leading zeros a value has one text: that of the number. */
  lemma {:induction false} DecimalOfValue(s: string)
    requires AllDigits(s) && s != [] && (|s| == 1 || s[0] != '0')
    ensures IsDecimal(s) && (s[0] != '0' ==> Value(s).value >= 1)
  {
    var n := |s| - 1;
    if n > 0 {
      DecimalOfValue(s[..n]);
      MoreDigits(s[..n], s[n]);
      assert s == s[..n] + [s[n]];
    } else {
      OneDigit(s[0]);
      assert s == [s[0]];
    }
  }

  const TWO64: nat := 0x1_0000_0000_0000_0000

  /** strconv.ParseUint(s, 10, 64). */
  function ParseUint(s: string): Option<nat> {
    if s == [] then None
    else
      var v := Value(s);
      if v.Some? && v.value < TWO64 then v else None
  }

  /** strconv.ParseInt(s, 10, 64). */
  function ParseInt(s: string): Option<int> {
    if s == [] then None
    else
      var signed := s[0] == '+' || s[0] == '-';
      var u := ParseUint(if signed then s[1..] else s);
      if u.None? then None
      else if s[0] == '-' then (if u.value > TWO63 then None else Some(-(u.value as int)))
      else if u.value >= TWO63 then None else Some(u.value)
  }

  /** The unsigned parser takes digits of a number below 2^64. */
  lemma UintAccepts(s: string)
    ensures ParseUint(s)
            == if s != [] && AllDigits(s) && Value(s).Some? && Value(s).value <= 18446744073709551615 then Value(s) else None
  {
    ValueOfDigits(s);
  }

  /** The signed parser takes digits of a number below 2^63, a plus sign changes nothing, a minus sign negates, and
      then the number may be 2^63 as well. */
  lemma IntAccepts(s: string)
    requires s != [] && AllDigits(s)
    ensures Value(s).Some?
    ensures ParseInt(s) == if Value(s).value <= 9223372036854775807 then Some(Value(s).value) else None
    ensures ParseInt("+" + s) == ParseInt(s)
    ensures ParseInt("-" + s) == if Value(s).value <= 9223372036854775808 then Some(-(Value(s).value as int)) else None
  {
    UintAccepts(s);
    assert s[0] != '+' && s[0] != '-';
    ValueOfDigits(s);
    assert ("+" + s)[0] == '+' && ("-" + s)[0] == '-';
    assert ("+" + s)[1..] == s && ("-" + s)[1..] == s;
  }

  /** And nothing else. */
  lemma IntRejects(s: string)
    requires ParseInt(s).Some?
    ensures s != [] && (AllDigits(s) || ((s[0] == '+' || s[0] == '-') && s[1..] != [] && AllDigits(s[1..])))
  {
    var signed := s[0] == '+' || s[0] == '-';
    UintAccepts(if signed then s[1..] else s);
  }

  function FormatInt(n: int): string {
    if n < 0 then "-" + Decimal(-n) else Decimal(n)
  }

  lemma {:induction false} DecimalStartsWithDigit(n: nat)
    ensures '0' <= Decimal(n)[0] <= '9'
  {
    if n >= 10 { DecimalStartsWithDigit(n / 10); }
  }

  lemma ParseUintOfDecimal(n: nat)
    ensures ParseUint(Decimal(n)) == if n < TWO64 then Some(n) else None
  {
    ValueOfDecimal(n);
  }

  lemma NegativeText(m: nat)
    requires m > 0
    ensures ParseInt("-" + Decimal(m)) == if m <= TWO63 then Some(-(m as int)) else None
  {
    var s := "-" + Decimal(m);
    assert s[0] == '-' && s[1..] == Decimal(m);
    ParseUintOfDecimal(m);
  }

  lemma ParseIntOfFormat(n: int)
    ensures ParseInt(FormatInt(n)) == if -(TWO63 as int) <= n < TWO63 then Some(n) else None
  {
    if n < 0 {
      NegativeText(-n);
    } else {
      DecimalStartsWithDigit(n);
      ParseUintOfDecimal(n);
    }
  }

  // ---- Booleans ----

  /** strconv.ParseBool. */
  function ParseBool(s: string): Option<bool> {
    if s in {"1", "t", "T", "true", "TRUE", "True"} then Some(true)
    else if s in {"0", "f", "F", "false", "FALSE", "False"} then Some(false)
    else None
  }

  /** The twelve texts of a truth value, and no others. */
  lemma BoolTexts(s: string)
    ensures ParseBool("1") == ParseBool("t") == ParseBool("T") == ParseBool("true") == ParseBool("TRUE")
            == ParseBool("True") == Some(true)
    ensures ParseBool("0") == ParseBool("f") == ParseBool("F") == ParseBool("false") == ParseBool("FALSE")
            == ParseBool("False") == Some(false)
    ensures ParseBool(s).Some? ==> s in ["1", "t", "T", "true", "TRUE", "True", "0", "f", "F", "false", "FALSE", "False"]
  {
  }

  function FormatBool(b: bool): string {
    if b then "true" else "false"
  }

  // ---- Trimming ----

  /** unicode.IsSpace. */
  predicate IsSpace(c: char): (space: bool)
    ensures space <==> c as int in {9, 10, 11, 12, 13, 32, 133, 160, 5760, 8192, 8193, 8194, 8195, 8196, 8197, 8198,
                                    8199, 8200, 8201, 8202, 8232, 8233, 8239, 8287, 12288}
  {
    || '\t' <= c <= '\r' || c == ' ' || c == '\U{85}' || c == '\U{A0}' || c == '\U{1680}'
    || '\U{2000}' <= c <= '\U{200A}' || c == '\U{2028}' || c == '\U{2029}' || c == '\U{202F}'
    || c == '\U{205F}' || c == '\U{3000}'
  }

  function TrimLeft(s: string): string {
    if s != [] && IsSpace(s[0]) then TrimLeft(s[1..]) else s
  }

  function TrimRight(s: string): string {
    if s != [] && IsSpace(s[|s| - 1]) then TrimRight(s[..|s| - 1]) else s
  }

  /** strings.TrimSpace. */
  function TrimSpace(s: string): string {
    TrimRight(TrimLeft(s))
  }

  predicate Trimmed(s: string) {
    s == [] || (!IsSpace(s[0]) && !IsSpace(s[|s| - 1]))
  }

  lemma {:induction false} TrimLeftClean(s: string)
    ensures var r := TrimLeft(s); r == [] || !IsSpace(r[0])
  {
    if s != [] && IsSpace(s[0]) { TrimLeftClean(s[1..]); }
  }

  lemma {:induction false} TrimRightClean(s: string)
    requires s == [] || !IsSpace(s[0])
    ensures Trimmed(TrimRight(s)) && TrimRight(s) <= s
  {
    if s != [] && IsSpace(s[|s| - 1]) { TrimRightClean(s[..|s| - 1]); }
  }

  /** The result is trimmed, and only text already trimmed is left as it was. */
  lemma TrimSpaceIsClean(s: string)
    ensures Trimmed(TrimSpace(s)) && (TrimSpace(s) == s <==> Trimmed(s))
  {
    TrimLeftClean(s);
    TrimRightClean(TrimLeft(s));
  }

  predicate AllSpace(s: string) {
    forall i :: 0 <= i < |s| ==> IsSpace(s[i])
  }

  lemma {:induction false} TrimLeftTakesSpace(s: string) returns (left: string)
    ensures s == left + TrimLeft(s) && AllSpace(left)
  {
    if s != [] && IsSpace(s[0]) {
      var rest := TrimLeftTakesSpace(s[1..]);
      left := [s[0]] + rest;
    } else {
      left := [];
    }
  }

  lemma {:induction false} TrimRightTakesSpace(s: string) returns (right: string)
    ensures s == TrimRight(s) + right && AllSpace(right)
  {
    if s != [] && IsSpace(s[|s| - 1]) {
      var rest := TrimRightTakesSpace(s[..|s| - 1]);
      right := rest + [s[|s| - 1]];
    } else {
      right := [];
    }
  }

  /** Trimming takes white space from the two ends and nothing else. */
  lemma TrimSpaceTakesSpace(s: string)
    ensures exists left, right :: s == left + TrimSpace(s) + right && AllSpace(left) && AllSpace(right)
  {
    var left := TrimLeftTakesSpace(s);
    var right := TrimRightTakesSpace(TrimLeft(s));
    assert s == left + TrimSpace(s) + right;
  }

  lemma {:induction false} TrimLeftKeeps(s: string, c: char)
    requires c !in s
    ensures c !in TrimLeft(s)
  {
    if s != [] && IsSpace(s[0]) { TrimLeftKeeps(s[1..], c); }
  }

  lemma {:induction false} TrimRightKeeps(s: string, c: char)
    requires c !in s
    ensures c !in TrimRight(s)
  {
    if s != [] && IsSpace(s[|s| - 1]) { TrimRightKeeps(s[..|s| - 1], c); }
  }

  // ---- Comma-separated lists ----

  /** strings.Split(s, ","). */
  function Split(s: string): (parts: seq<string>)
    ensures parts != []
  {
    if s == [] then [[]]
    else
      var rest := Split(s[1..]);
      if s[0] == ',' then [[]] + rest else [[s[0]] + rest[0]] + rest[1..]
  }

  function Join(parts: seq<string>): string {
    if parts == [] then []
    else if |parts| == 1 then parts[0]
    else parts[0] + "," + Join(parts[1..])
  }

  predicate CommaFree(parts: seq<string>) {
    forall i :: 0 <= i < |parts| ==> ',' !in parts[i]
  }

  lemma {:induction false} SplitFirst(x: string, rest: string)
    requires ',' !in x
    ensures Split(x + "," + rest) == [x] + Split(rest)
  {
    var s := x + "," + rest;
    if x == [] {
      assert s[1..] == rest;
    } else {
      SplitFirst(x[1..], rest);
      assert s[1..] == x[1..] + "," + rest;
      assert x[0] in x && s[0] == x[0];
      assert [x[0]] + x[1..] == x;
    }
  }

  lemma {:induction false} SplitWhole(x: string)
    requires ',' !in x
    ensures Split(x) == [x]
  {
    if x != [] {
      SplitWhole(x[1..]);
      assert x[0] in x && [x[0]] + x[1..] == x;
    }
  }

  lemma {:induction false} SplitOfJoin(parts: seq<string>)
    requires parts != [] && CommaFree(parts)
    ensures Split(Join(parts)) == parts
  {
    if |parts| == 1 {
      SplitWhole(parts[0]);
    } else {
      SplitOfJoin(parts[1..]);
      SplitFirst(parts[0], Join(parts[1..]));
    }
  }

  /** Splitting loses nothing: the parts joined are the text. */
  lemma {:induction false} JoinOfSplit(s: string)
    ensures Join(Split(s)) == s && CommaFree(Split(s))
  {
    SplitIsCommaFree(s);
    if s != [] {
      var rest := Split(s[1..]);
      JoinOfSplit(s[1..]);
      if s[0] == ',' {
        assert ([[]] + rest)[1..] == rest;
        assert Join([[]] + rest) == [] + "," + Join(rest);
      } else {
        var parts := [[s[0]] + rest[0]] + rest[1..];
        assert parts[1..] == rest[1..];
        if |rest| > 1 { assert Join(parts) == ([s[0]] + rest[0]) + "," + Join(rest[1..]); }
        assert Join(parts) == [s[0]] + Join(rest);
      }
      assert [s[0]] + s[1..] == s;
    }
  }

  lemma {:induction false} SplitIsCommaFree(s: string)
    ensures CommaFree(Split(s))
  {
    if s != [] { SplitIsCommaFree(s[1..]); }
  }

  /** A list read from text: split at commas, each element trimmed. */
  function TrimAll(parts: seq<string>): (r: seq<string>)
    ensures |r| == |parts| && forall i :: 0 <= i < |r| ==> r[i] == TrimSpace(parts[i])
  {
    seq(|parts|, i requires 0 <= i < |parts| => TrimSpace(parts[i]))
  }

  predicate CleanList(parts: seq<string>) {
    parts != [] && CommaFree(parts) && forall i :: 0 <= i < |parts| ==> Trimmed(parts[i])
  }

  /** A list survives being joined and read back exactly when it is not empty and its elements are
      trimmed and comma-free. */
  lemma ListRoundTrip(parts: seq<string>)
    ensures TrimAll(Split(Join(parts))) == parts <==> CleanList(parts)
  {
    var read := Split(Join(parts));
    SplitIsCommaFree(Join(parts));
    forall i | 0 <= i < |read| ensures ',' !in TrimAll(read)[i] && Trimmed(TrimAll(read)[i]) {
      TrimLeftKeeps(read[i], ',');
      TrimRightKeeps(TrimLeft(read[i]), ',');
      TrimSpaceIsClean(read[i]);
    }
    if CleanList(parts) {
      SplitOfJoin(parts);
      forall i | 0 <= i < |parts| ensures TrimAll(parts)[i] == parts[i] { TrimSpaceIsClean(parts[i]); }
    }
  }

  /** The loop that trims the split parts where they lie. */
  method TrimInPlace(parts: array<string>)
    modifies parts
    ensures parts[..] == TrimAll(old(parts[..]))
  {
    for i := 0 to parts.Length
      invariant forall k :: 0 <= k < i ==> parts[k] == TrimSpace(old(parts[k]))
      invariant forall k :: i <= k < parts.Length ==> parts[k] == old(parts[k])
    {
      parts[i] := TrimSpace(parts[i]);
    }
  }
}
