/**
 Text as the agent and the web client read it: numbers, white space, splitting and trimming.
 */
module Text {
  import opened Common

  // ---- numbers ----

  const MAX_INT: int := 0x7fff_ffff_ffff_ffff

  predicate IsDigit(c: char) {
    '0' <= c <= '9'
  }

  predicate AllDigits(s: string) {
    forall i :: 0 <= i < |s| ==> IsDigit(s[i])
  }

  function Value(s: string): nat
    requires AllDigits(s)
  {
    if s == "" then 0 else Value(s[..|s| - 1]) * 10 + (s[|s| - 1] as int - '0' as int)
  }

  /** An optional sign and decimal digits that fit 64 bits, as the library reads integers. */
  function Atoi(s: string): Option<int> {
    var signed := s != "" && (s[0] == '+' || s[0] == '-');
    var digits := if signed then s[1..] else s;
    if digits == "" || !AllDigits(digits) then None
    else
      var n: int := if signed && s[0] == '-' then -(Value(digits) as int) else Value(digits);
      if -MAX_INT - 1 <= n <= MAX_INT then Some(n) else None
  }

  /** A numeral without a sign that fits 64 bits. */
  predicate Numeral(s: string) {
    s != "" && AllDigits(s) && Value(s) <= MAX_INT
  }

  lemma NumeralAtoi(s: string)
    requires Numeral(s)
    ensures Atoi(s) == Some(Value(s))
  {
    assert IsDigit(s[0]);
  }

  function Digit(d: nat): char
    requires d < 10
  {
    ('0' as int + d) as char
  }

  /** The usual decimal form of a number. */
  function Decimal(n: nat): (s: string)
    ensures s != ""
    ensures (n < 10 ==> |s| == 1) && (n < 100 ==> |s| <= 2) && (n < 1000 ==> |s| <= 3)
  {
    if n < 10 then [Digit(n)] else Decimal(n / 10) + [Digit(n % 10)]
  }

  lemma {:induction false} DecimalValue(n: nat)
    ensures AllDigits(Decimal(n)) && Value(Decimal(n)) == n
  {
    if n >= 10 {
      DecimalValue(n / 10);
      assert Decimal(n)[..|Decimal(n)| - 1] == Decimal(n / 10);
    } else {
      assert Decimal(n)[..0] == "";
    }
  }

  lemma DecimalAtoi(n: nat)
    requires n <= MAX_INT
    ensures Atoi(Decimal(n)) == Some(n)
  {
    DecimalValue(n);
    NumeralAtoi(Decimal(n));
  }

  // ---- white space and case ----

  /** White space in the agent's string library. */
  predicate IsSpace(c: char) {
    c == '\U{0085}' || (IsWebSpace(c) && c != '\U{FEFF}')
  }

  /** White space in the web client's patterns and trimming. */
  predicate IsWebSpace(c: char) {
    || '\t' <= c <= '\r' || c == ' ' || c == '\U{00A0}' || c == '\U{1680}' || '\U{2000}' <= c <= '\U{200A}'
    || c == '\U{2028}' || c == '\U{2029}' || c == '\U{202F}' || c == '\U{205F}' || c == '\U{3000}' || c == '\U{FEFF}'
  }

  function LowerChar(c: char): char {
    if 'A' <= c <= 'Z' then (c as int + 32) as char else c
  }

  function Lower(s: string): (l: string)
    ensures |l| == |s|
  {
    seq(|s|, i requires 0 <= i < |s| => LowerChar(s[i]))
  }

  /** Only the letters A to Z change, each to the one 32 places on: its small form. */
  lemma LowerMeans(s: string, i: nat)
    requires i < |s|
    ensures 'A' <= s[i] <= 'Z' ==> Lower(s)[i] as int - 'a' as int == s[i] as int - 'A' as int
    ensures !('A' <= s[i] <= 'Z') ==> Lower(s)[i] == s[i]
  {
  }

  // ---- runs and trimming ----

  predicate All(s: string, p: char -> bool) {
    forall i :: 0 <= i < |s| ==> p(s[i])
  }

  /** How many characters at the front satisfy p. */
  function Leading(s: string, p: char -> bool): (n: nat)
    ensures n <= |s|
  {
    if s != "" && p(s[0]) then 1 + Leading(s[1..], p) else 0
  }

  predicate StartsOutside(s: string, p: char -> bool) {
    s != "" ==> !p(s[0])
  }

  lemma {:induction false} LeadingIs(run: string, rest: string, p: char -> bool)
    requires All(run, p) && StartsOutside(rest, p)
    ensures Leading(run + rest, p) == |run|
    decreases |run|
  {
    if run == "" {
      assert run + rest == rest;
    } else {
      assert (run + rest)[1..] == run[1..] + rest;
      LeadingIs(run[1..], rest, p);
    }
  }

  function DropSpaceRight(s: string): string {
    if s != "" && IsSpace(s[|s| - 1]) then DropSpaceRight(s[..|s| - 1]) else s
  }

  function TrimSpace(s: string): string {
    DropSpaceRight(s[Leading(s, IsSpace)..])
  }

  predicate Trimmed(s: string) {
    s != "" ==> !IsSpace(s[0]) && !IsSpace(s[|s| - 1])
  }

  lemma {:induction false} DropSpaceRightIs(s: string, space: string)
    requires All(space, IsSpace) && Trimmed(s)
    ensures DropSpaceRight(s + space) == s
    decreases |space|
  {
    if space == "" {
      assert s + space == s;
    } else {
      assert (s + space)[..|s + space| - 1] == s + space[..|space| - 1];
      DropSpaceRightIs(s, space[..|space| - 1]);
    }
  }

  lemma {:induction false} OnlySpace(s: string)
    requires All(s, IsSpace)
    ensures DropSpaceRight(s) == ""
    decreases |s|
  {
    if s != "" {
      OnlySpace(s[..|s| - 1]);
    }
  }

  lemma TrimSpaceIs(before: string, s: string, after: string)
    requires All(before, IsSpace) && All(after, IsSpace) && Trimmed(s)
    ensures TrimSpace(before + s + after) == s
  {
    if s == "" {
      assert before + s + after == before + after + "";
      LeadingIs(before + after, "", IsSpace);
    } else {
      assert before + s + after == before + (s + after);
      LeadingIs(before, s + after, IsSpace);
      assert (before + (s + after))[|before|..] == s + after;
      DropSpaceRightIs(s, after);
    }
  }

  lemma {:induction false} DropSpaceRightTrims(s: string)
    ensures DropSpaceRight(s) <= s
    ensures DropSpaceRight(s) != "" ==> !IsSpace(DropSpaceRight(s)[|DropSpaceRight(s)| - 1])
    decreases |s|
  {
    if s != "" && IsSpace(s[|s| - 1]) {
      DropSpaceRightTrims(s[..|s| - 1]);
    }
  }

  lemma {:induction false} AfterLeading(s: string, p: char -> bool)
    ensures StartsOutside(s[Leading(s, p)..], p)
    decreases |s|
  {
    if s != "" && p(s[0]) {
      AfterLeading(s[1..], p);
      assert s[Leading(s, p)..] == s[1..][Leading(s[1..], p)..];
    }
  }

  lemma TrimSpaceTrims(s: string)
    ensures Trimmed(TrimSpace(s))
  {
    AfterLeading(s, IsSpace);
    DropSpaceRightTrims(s[Leading(s, IsSpace)..]);
  }

  // ---- splitting ----

  function Split(s: string, sep: char): (parts: seq<string>)
    ensures parts != []
  {
    if s == "" then [""]
    else if s[0] == sep then [""] + Split(s[1..], sep)
    else
      var rest := Split(s[1..], sep);
      [[s[0]] + rest[0]] + rest[1..]
  }

  function Join(parts: seq<string>, sep: char): string
    requires parts != []
  {
    if |parts| == 1 then parts[0] else parts[0] + [sep] + Join(parts[1..], sep)
  }

  lemma {:induction false} SplitFirst(part: string, rest: string, sep: char)
    requires sep !in part
    ensures Split(part, sep) == [part]
    ensures Split(part + [sep] + rest, sep) == [part] + Split(rest, sep)
    decreases |part|
  {
    var s := part + [sep] + rest;
    if part == "" {
      assert s[1..] == rest;
    } else {
      SplitFirst(part[1..], rest, sep);
      assert s[1..] == part[1..] + [sep] + rest;
      assert [part[0]] + part[1..] == part;
    }
  }

  /** Splitting gives back what was joined, when no part holds the separator. */
  lemma {:induction false} SplitJoin(parts: seq<string>, sep: char)
    requires parts != [] && forall i :: 0 <= i < |parts| ==> sep !in parts[i]
    ensures Split(Join(parts, sep), sep) == parts
    decreases |parts|
  {
    if |parts| == 1 {
      SplitFirst(parts[0], "", sep);
    } else {
      SplitFirst(parts[0], Join(parts[1..], sep), sep);
      SplitJoin(parts[1..], sep);
    }
  }
}
