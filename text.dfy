/**
 * The string operations the IPC line protocol and the address handling rely
 * on, with Rust's meaning: `i32::from_str`, integer `Display`, `str::trim`
 * (Unicode White_Space) and `str::split` on a single character.
 */
module Text {
  import opened Wrappers
  import opened Bytes

  predicate IsDigit(c: char) {
    '0' <= c <= '9'
  }

  predicate AllDigits(s: string) {
    forall i :: 0 <= i < |s| ==> IsDigit(s[i])
  }

  function DigitValue(c: char): (d: nat)
    requires IsDigit(c)
    ensures d < 10
  {
    c as int - '0' as int
  }

  function DigitChar(d: nat): (c: char)
    requires d < 10
    ensures IsDigit(c) && DigitValue(c) == d
  {
    ('0' as int + d) as char
  }

  /** The value of a string of decimal digits, most significant first. */
  function DecimalValue(s: string): nat
    requires AllDigits(s)
  {
    if s == [] then 0 else 10 * DecimalValue(s[..|s| - 1]) + DigitValue(s[|s| - 1])
  }

  /** Decimal text of a natural number, as Rust's `Display` writes it. */
  function FormatNat(n: nat): (s: string)
    ensures 1 <= |s| && AllDigits(s)
    ensures s[0] == '0' ==> n == 0 && |s| == 1
    ensures n < 10 ==> |s| == 1
    ensures n < 100 ==> |s| <= 2
    ensures n < 1000 ==> |s| <= 3
  {
    if n < 10 then [DigitChar(n)] else FormatNat(n / 10) + [DigitChar(n % 10)]
  }

  lemma {:induction false} FormatNatValue(n: nat)
    ensures DecimalValue(FormatNat(n)) == n
  {
    if n >= 10 {
      FormatNatValue(n / 10);
      var s := FormatNat(n);
      assert s[..|s| - 1] == FormatNat(n / 10);
    }
  }

  /** Decimal text of an integer, with a leading `-` when negative. */
  function FormatInt(n: int): (s: string)
    ensures 1 <= |s| && IsDigit(s[|s| - 1])
    ensures s[0] == '-' || IsDigit(s[0])
    ensures forall i :: 0 <= i < |s| ==> IsDigit(s[i]) || (i == 0 && s[i] == '-')
  {
    if n < 0 then "-" + FormatNat(-n) else FormatNat(n)
  }

  /**
   * `s.parse::<i32>()`: an optional `+` or `-`, then one or more decimal
   * digits and nothing else, denoting a value in the i32 range.
   */
  function ParseI32(s: string): (r: Option<int>)
    ensures r.Some? ==> IsI32(r.value)
  {
    if |s| == 0 then None
    else if s[0] == '+' || s[0] == '-' then
      if |s| == 1 then None else SignedValue(s[0] == '-', s[1..])
    else SignedValue(false, s)
  }

  /** The i32 denoted by a digit string and a sign, if it is one. */
  function SignedValue(negative: bool, digits: string): (r: Option<int>)
    ensures r.Some? ==> IsI32(r.value)
  {
    if !AllDigits(digits) then None
    else
      var v: int := if negative then 0 - DecimalValue(digits) as int else DecimalValue(digits);
      if IsI32(v) then Some(v) else None
  }

  lemma ParseFormatI32(n: int)
    requires IsI32(n)
    ensures ParseI32(FormatInt(n)) == Some(n)
  {
    var m: nat := if n < 0 then -n else n;
    var digits := FormatNat(m);
    FormatNatValue(m);
    assert SignedValue(n < 0, digits) == Some(n);
    if n < 0 {
      assert ("-" + digits)[1..] == digits;
    }
  }

  /** Characters with the Unicode White_Space property, which `str::trim` removes. */
  predicate IsWhiteSpace(c: char) {
    || ('\t' <= c <= '\r') || c == ' ' || c == '\U{0085}' || c == '\U{00A0}' || c == '\U{1680}'
    || ('\U{2000}' <= c <= '\U{200A}') || c == '\U{2028}' || c == '\U{2029}'
    || c == '\U{202F}' || c == '\U{205F}' || c == '\U{3000}'
  }

  /** `str::trim_start`: the suffix left after dropping leading white space. */
  function TrimStart(s: string): (r: string)
    ensures |r| <= |s| && r == s[|s| - |r|..]
    ensures forall i :: 0 <= i < |s| - |r| ==> IsWhiteSpace(s[i])
    ensures r != [] ==> !IsWhiteSpace(r[0])
  {
    if s != [] && IsWhiteSpace(s[0]) then TrimStart(s[1..]) else s
  }

  /** `str::trim_end`: the prefix left after dropping trailing white space. */
  function TrimEnd(s: string): (r: string)
    ensures |r| <= |s| && r == s[..|r|]
    ensures forall i :: |r| <= i < |s| ==> IsWhiteSpace(s[i])
    ensures r != [] ==> !IsWhiteSpace(r[|r| - 1])
  {
    if s != [] && IsWhiteSpace(s[|s| - 1]) then TrimEnd(s[..|s| - 1]) else s
  }

  /**
   * `str::trim`: the middle of `s` left after dropping white space at both
   * ends; a text of white space only trims to nothing.
   */
  function Trim(s: string): (r: string)
    ensures var lead := |s| - |TrimStart(s)|;
            lead + |r| <= |s| && r == s[lead..lead + |r|]
            && (forall k :: 0 <= k < lead ==> IsWhiteSpace(s[k]))
            && (forall k :: lead + |r| <= k < |s| ==> IsWhiteSpace(s[k]))
    ensures r != [] ==> !IsWhiteSpace(r[0]) && !IsWhiteSpace(r[|r| - 1])
  {
    TrimEnd(TrimStart(s))
  }

  /** Trimming a line that has no surrounding white space of its own removes exactly its newline. */
  lemma TrimNewline(s: string)
    requires s != [] && !IsWhiteSpace(s[0]) && !IsWhiteSpace(s[|s| - 1])
    ensures Trim(s + "\n") == s
  {
    assert TrimStart(s + "\n") == s + "\n";
    assert (s + "\n")[..|s|] == s;
  }

  /** Index of the first occurrence of `sep` in `s`. */
  function FirstIndex(s: string, sep: char): (i: nat)
    requires sep in s
    ensures i < |s| && s[i] == sep && sep !in s[..i]
  {
    if s[0] == sep then 0 else 1 + FirstIndex(s[1..], sep)
  }

  /** `s.split(sep)` collected into a vector: the pieces between separators, empty ones included. */
  function Split(s: string, sep: char): (parts: seq<string>)
    ensures 1 <= |parts|
    decreases |s|
  {
    if sep !in s then [s]
    else
      var i := FirstIndex(s, sep);
      [s[..i]] + Split(s[i + 1..], sep)
  }

  /** No piece holds the separator. */
  predicate SeparatorFree(parts: seq<string>, sep: char) {
    forall k :: 0 <= k < |parts| ==> sep !in parts[k]
  }

  /** The pieces of a split never hold the separator. */
  lemma {:induction false} SplitSeparatorFree(s: string, sep: char)
    ensures SeparatorFree(Split(s, sep), sep)
    decreases |s|
  {
    if sep in s {
      var i := FirstIndex(s, sep);
      SplitSeparatorFree(s[i + 1..], sep);
    }
  }

  /** Pieces glued back together with the separator between them. */
  function Join(parts: seq<string>, sep: char): string
    requires 1 <= |parts|
  {
    if |parts| == 1 then parts[0] else parts[0] + [sep] + Join(parts[1..], sep)
  }

  lemma SplitFirst(a: string, sep: char, b: string)
    requires sep !in a
    ensures Split(a + [sep] + b, sep) == [a] + Split(b, sep)
  {
    var s := a + [sep] + b;
    assert s[|a|] == sep;
    var i := FirstIndex(s, sep);
    assert s[..i] == a;
    assert s[i + 1..] == b;
  }

  /** Splitting what `Join` glued recovers the pieces, when none holds the separator. */
  lemma {:induction false} SplitJoin(parts: seq<string>, sep: char)
    requires 1 <= |parts|
    requires SeparatorFree(parts, sep)
    ensures Split(Join(parts, sep), sep) == parts
  {
    if |parts| > 1 {
      var first, others := parts[0], parts[1..];
      var rest := Join(others, sep);
      assert Join(parts, sep) == first + [sep] + rest;
      assert SeparatorFree(others, sep) by {
        forall k | 0 <= k < |others| ensures sep !in others[k] {
          assert others[k] == parts[k + 1];
        }
      }
      SplitJoin(others, sep);
      SplitFirst(first, sep, rest);
      assert [first] + others == parts;
    }
  }

  lemma JoinCons(head: string, pieces: seq<string>, sep: char)
    requires 1 <= |pieces|
    ensures Join([head] + pieces, sep) == head + [sep] + Join(pieces, sep)
  {
    assert ([head] + pieces)[1..] == pieces;
  }

  /** Joining the pieces of a split gives back the original string. */
  lemma {:induction false} JoinSplit(s: string, sep: char)
    ensures Join(Split(s, sep), sep) == s
    decreases |s|
  {
    if sep in s {
      var i := FirstIndex(s, sep);
      var head, tail := s[..i], s[i + 1..];
      assert s == head + [sep] + tail;
      JoinSplit(tail, sep);
      JoinSplitStep(head, sep, tail);
    }
  }

  lemma JoinSplitStep(head: string, sep: char, tail: string)
    requires sep !in head
    requires Join(Split(tail, sep), sep) == tail
    ensures Join(Split(head + [sep] + tail, sep), sep) == head + [sep] + tail
  {
    SplitFirst(head, sep, tail);
    JoinCons(head, Split(tail, sep), sep);
  }

}
