/** The string helpers the spoken replies are built from: decimal digits with
    thousands separators, trimming of commas and spaces, the first sentence of
    a description, joining with spaces and ASCII case folding. */
module Text {

  predicate IsDigit(c: char)
  {
    '0' <= c <= '9'
  }

  predicate AllDigits(s: string)
  {
    forall i :: 0 <= i < |s| ==> IsDigit(s[i])
  }

  function DigitChar(d: nat): (c: char)
    requires d < 10
    ensures IsDigit(c) && c as int - '0' as int == d
  {
    ('0' as int + d) as char
  }

  function DigitValue(c: char): (d: nat)
    requires IsDigit(c)
    ensures d < 10
  {
    (c as int - '0' as int) as nat
  }

  /** The decimal numeral of n, as Python's str() writes a non-negative int. */
  function Digits(n: nat): (s: string)
    ensures 1 <= |s| && AllDigits(s)
    ensures s[0] == '0' ==> n == 0
    decreases n
  {
    if n < 10 then [DigitChar(n)] else Digits(n / 10) + [DigitChar(n % 10)]
  }

  /** The number a string of decimal digits denotes. */
  function Value(s: string): nat
    requires AllDigits(s)
  {
    if s == [] then 0 else 10 * Value(s[..|s| - 1]) + DigitValue(s[|s| - 1])
  }

  lemma {:induction false} DigitsValue(n: nat)
    ensures Value(Digits(n)) == n
    decreases n
  {
    if n >= 10 {
      DigitsValue(n / 10);
      var s := Digits(n);
      assert s[..|s| - 1] == Digits(n / 10);
    }
  }

  /** Commas every three digits from the right, as the `,` format option does. */
  function GroupThousands(digits: string): string
    decreases |digits|
  {
    if |digits| <= 3 then digits
    else GroupThousands(digits[..|digits| - 3]) + "," + digits[|digits| - 3..]
  }

  /** `f"{n:,}"` for a non-negative integer n. */
  function Grouped(n: nat): string
  {
    GroupThousands(Digits(n))
  }

  /** A leading group of one to three digits, then groups of exactly three,
      each preceded by a comma. */
  predicate WellGrouped(s: string)
    decreases |s|
  {
    if |s| <= 3 then 1 <= |s| && AllDigits(s)
    else |s| >= 5 && s[|s| - 4] == ',' && AllDigits(s[|s| - 3..]) && WellGrouped(s[..|s| - 4])
  }

  function DropCommas(s: string): (r: string)
  {
    if s == [] then [] else (if s[0] == ',' then [] else [s[0]]) + DropCommas(s[1..])
  }

  lemma {:induction false} DropCommasConcat(a: string, b: string)
    ensures DropCommas(a + b) == DropCommas(a) + DropCommas(b)
    decreases |a|
  {
    if a == [] {
      assert a + b == b;
    } else {
      assert (a + b)[0] == a[0];
      assert (a + b)[1..] == a[1..] + b;
      DropCommasConcat(a[1..], b);
    }
  }

  lemma {:induction false} DropCommasOfDigits(s: string)
    requires AllDigits(s)
    ensures DropCommas(s) == s
    decreases |s|
  {
    if s != [] {
      DropCommasOfDigits(s[1..]);
    }
  }

  /** One grouping step: a comma, then the last three digits. */
  lemma GroupStep(g: string, tail: string)
    requires WellGrouped(g) && |tail| == 3 && AllDigits(tail)
    ensures WellGrouped(g + "," + tail)
  {
    var r := g + "," + tail;
    assert r[|r| - 4] == ',';
    assert r[..|r| - 4] == g;
    assert r[|r| - 3..] == tail;
  }

  lemma {:induction false} GroupThousandsWellGrouped(s: string)
    requires 1 <= |s| && AllDigits(s)
    ensures WellGrouped(GroupThousands(s))
    decreases |s|
  {
    if |s| > 3 {
      var head := s[..|s| - 3];
      GroupThousandsWellGrouped(head);
      GroupStep(GroupThousands(head), s[|s| - 3..]);
    }
  }

  lemma {:induction false} GroupThousandsDropCommas(s: string)
    requires AllDigits(s)
    ensures DropCommas(GroupThousands(s)) == s
    decreases |s|
  {
    if |s| <= 3 {
      DropCommasOfDigits(s);
    } else {
      var head, tail := s[..|s| - 3], s[|s| - 3..];
      GroupThousandsDropCommas(head);
      var g := GroupThousands(head);
      DropCommasConcat(g + ",", tail);
      DropCommasConcat(g, ",");
      DropCommasOfDigits(tail);
      assert head + tail == s;
    }
  }

  /** The grouped numeral is well formed and reads back as n once the commas
      are removed. */
  lemma GroupedReadsBack(n: nat)
    ensures WellGrouped(Grouped(n))
    ensures DropCommas(Grouped(n)) == Digits(n)
    ensures AllDigits(DropCommas(Grouped(n))) && Value(DropCommas(Grouped(n))) == n
  {
    GroupThousandsWellGrouped(Digits(n));
    GroupThousandsDropCommas(Digits(n));
    DigitsValue(n);
  }

  /** The characters `str.strip(', ')` removes. */
  predicate Strippable(c: char)
  {
    c == ',' || c == ' '
  }

  predicate AllStrippable(s: string)
  {
    forall i :: 0 <= i < |s| ==> Strippable(s[i])
  }

  function TrimStart(s: string): (r: string)
    ensures |r| <= |s|
  {
    if s != [] && Strippable(s[0]) then TrimStart(s[1..]) else s
  }

  function TrimEnd(s: string): (r: string)
    ensures |r| <= |s|
  {
    if s != [] && Strippable(s[|s| - 1]) then TrimEnd(s[..|s| - 1]) else s
  }

  /** TrimStart drops the longest prefix of commas and spaces. */
  lemma {:induction false} TrimStartSpec(s: string)
    ensures |TrimStart(s)| <= |s|
    ensures TrimStart(s) == s[|s| - |TrimStart(s)|..]
    ensures AllStrippable(s[..|s| - |TrimStart(s)|])
    ensures TrimStart(s) != [] ==> !Strippable(TrimStart(s)[0])
    decreases |s|
  {
    if s != [] && Strippable(s[0]) {
      var rest := s[1..];
      TrimStartSpec(rest);
      var r := TrimStart(s);
      assert r == TrimStart(rest);
      assert rest[|rest| - |r|..] == s[|s| - |r|..];
      var dropped := rest[..|rest| - |r|];
      assert AllStrippable(dropped);
      assert AllStrippable([s[0]]);
      AllStrippableConcat([s[0]], dropped);
      assert s[..|s| - |r|] == [s[0]] + dropped;
    } else {
      assert s[..0] == [];
    }
  }

  /** TrimEnd drops the longest suffix of commas and spaces. */
  lemma {:induction false} TrimEndSpec(s: string)
    ensures |TrimEnd(s)| <= |s|
    ensures TrimEnd(s) == s[..|TrimEnd(s)|]
    ensures AllStrippable(s[|TrimEnd(s)|..])
    ensures TrimEnd(s) != [] ==> !Strippable(TrimEnd(s)[|TrimEnd(s)| - 1])
    decreases |s|
  {
    if s != [] && Strippable(s[|s| - 1]) {
      var rest := s[..|s| - 1];
      TrimEndSpec(rest);
      var r := TrimEnd(s);
      assert r == TrimEnd(rest);
      assert rest[..|r|] == s[..|r|];
      var dropped := rest[|r|..];
      assert AllStrippable(dropped);
      assert AllStrippable([s[|s| - 1]]);
      AllStrippableConcat(dropped, [s[|s| - 1]]);
      assert s[|r|..] == dropped + [s[|s| - 1]];
    } else {
      assert s[|s|..] == [];
    }
  }

  /** `s.strip(', ')`: drop commas and spaces from both ends. */
  function Strip(s: string): string
  {
    TrimEnd(TrimStart(s))
  }

  lemma AllStrippableConcat(a: string, b: string)
    ensures AllStrippable(a + b) <==> AllStrippable(a) && AllStrippable(b)
  {
    assert forall i :: 0 <= i < |a| ==> a[i] == (a + b)[i];
    assert forall i :: 0 <= i < |b| ==> b[i] == (a + b)[|a| + i];
  }

  lemma {:induction false} TrimStartOfStrippable(s: string)
    requires AllStrippable(s)
    ensures TrimStart(s) == []
    decreases |s|
  {
    if s != [] {
      assert Strippable(s[0]);
      TrimStartOfStrippable(s[1..]);
    }
  }

  /** Where the text kept by Strip begins in s. */
  function StripOffset(s: string): nat
  {
    |s| - |TrimStart(s)|
  }

  /** Strip keeps the middle of s that starts at StripOffset(s), which neither
      begins nor ends with a comma or space, and removes only commas and
      spaces around it. */
  lemma StripKeepsMiddle(s: string)
    ensures StripOffset(s) + |Strip(s)| <= |s|
    ensures Strip(s) == s[StripOffset(s)..StripOffset(s) + |Strip(s)|]
    ensures AllStrippable(s[..StripOffset(s)])
    ensures AllStrippable(s[StripOffset(s) + |Strip(s)|..])
    ensures Strip(s) != [] ==> !Strippable(Strip(s)[0]) && !Strippable(Strip(s)[|Strip(s)| - 1])
  {
    var t := TrimStart(s);
    var r := TrimEnd(t);
    var i := StripOffset(s);
    TrimStartSpec(s);
    TrimEndSpec(t);
    calc {
      s[i..i + |r|];
      s[i..][..|r|];
      t[..|r|];
      r;
    }
    assert s[i + |r|..] == t[|r|..];
    if r != [] {
      assert r[0] == t[0];
    }
  }

  /** Stripping leaves nothing exactly when s holds only commas and spaces. */
  lemma StripEmptyIff(s: string)
    ensures Strip(s) == "" <==> AllStrippable(s)
  {
    var t := TrimStart(s);
    var i := |s| - |t|;
    TrimStartSpec(s);
    TrimEndSpec(t);
    assert s == s[..i] + t;
    if Strip(s) == "" {
      assert t[0..] == t;
      AllStrippableConcat(s[..i], t);
    }
    if AllStrippable(s) {
      TrimStartOfStrippable(s);
    }
  }

  /** The text before the first '.', i.e. `s.split('.')[0]`. */
  function FirstSentence(s: string): (r: string)
    ensures r <= s
    ensures '.' !in r
    ensures |r| < |s| ==> s[|r|] == '.'
  {
    if s == [] || s[0] == '.' then [] else [s[0]] + FirstSentence(s[1..])
  }

  /** `" ".join(parts)`. */
  function JoinSpaces(parts: seq<string>): string
  {
    if |parts| == 0 then ""
    else if |parts| == 1 then parts[0]
    else parts[0] + " " + JoinSpaces(parts[1..])
  }

  lemma {:induction false} JoinSpacesAppend(parts: seq<string>, more: seq<string>)
    requires parts != [] && more != []
    ensures JoinSpaces(parts + more) == JoinSpaces(parts) + " " + JoinSpaces(more)
    decreases |parts|
  {
    if |parts| == 1 {
      assert (parts + more)[1..] == more;
    } else {
      assert (parts + more)[1..] == parts[1..] + more;
      JoinSpacesAppend(parts[1..], more);
    }
  }

  lemma JoinSpacesStartsWithFirst(first: string, rest: seq<string>)
    ensures first <= JoinSpaces([first] + rest)
  {
    assert ([first] + rest)[0] == first;
    assert ([first] + rest)[1..] == rest;
  }

  function Lower(c: char): char
  {
    if 'A' <= c <= 'Z' then (c as int + 32) as char else c
  }

  function LowerText(s: string): (r: string)
    ensures |r| == |s|
    ensures forall i :: 0 <= i < |s| ==> r[i] == Lower(s[i])
  {
    if s == [] then [] else [Lower(s[0])] + LowerText(s[1..])
  }

  predicate IsInfix(needle: string, hay: string)
    decreases |hay|
  {
    needle <= hay || (hay != [] && IsInfix(needle, hay[1..]))
  }

  /** `column ILIKE '%needle%'`, with ASCII case folding. */
  predicate ContainsIgnoringCase(hay: string, needle: string)
  {
    IsInfix(LowerText(needle), LowerText(hay))
  }
}
