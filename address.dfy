/**
 * How `Query::new` turns the address the user typed into the IPv4 address
 * the request packets carry: a dotted-quad pattern check, a fallback to the
 * addresses a host-name lookup returned (the last IPv4 one wins), and the
 * standard library's strict IPv4 parser applied to whichever text results.
 */
module Address {
  import opened Wrappers
  import opened Bytes
  import opened Text

  /** The four octets of an IPv4 address, most significant first. */
  type Octets = s: seq<byte> | |s| == 4 witness [0, 0, 0, 0]

  // ------------------------------------------------------- the pattern check

  /**
   * One group of the address pattern, the alternation
   * `25[0-5]|2[0-4][0-9]|[01]?[0-9][0-9]?`, written out alternative by
   * alternative (the last one with each choice of its two optional parts).
   */
  predicate PatternOctet(s: string)
    ensures PatternOctet(s) ==> 1 <= |s| <= 3 && AllDigits(s)
  {
    || (|s| == 3 && s[0] == '2' && s[1] == '5' && '0' <= s[2] <= '5')
    || (|s| == 3 && s[0] == '2' && '0' <= s[1] <= '4' && IsDigit(s[2]))
    || (|s| == 1 && IsDigit(s[0]))
    || (|s| == 2 && IsDigit(s[0]) && IsDigit(s[1]))
    || (|s| == 2 && (s[0] == '0' || s[0] == '1') && IsDigit(s[1]))
    || (|s| == 3 && (s[0] == '0' || s[0] == '1') && IsDigit(s[1]) && IsDigit(s[2]))
  }

  /**
   * The anchored pattern of four groups joined by literal dots. No group can
   * hold a dot, so the dots are exactly the separators.
   */
  predicate IsDottedQuad(s: string) {
    PatternFields(Split(s, '.'))
  }

  predicate PatternFields(parts: seq<string>) {
    |parts| == 4 && PatternOctet(parts[0]) && PatternOctet(parts[1])
    && PatternOctet(parts[2]) && PatternOctet(parts[3])
  }

  /** Only digits and dots. */
  predicate DigitsAndDots(s: string) {
    forall i :: 0 <= i < |s| ==> IsDigit(s[i]) || s[i] == '.'
  }

  /** Text passing the check is seven to fifteen digits and dots, with exactly three dots. */
  lemma DottedQuadShape(s: string)
    requires IsDottedQuad(s)
    ensures 7 <= |s| <= 15 && DigitsAndDots(s) && multiset(s)['.'] == 3
  {
    var p := Split(s, '.');
    JoinSplit(s, '.');
    forall k | 0 <= k < 4 ensures DigitsAndDots(p[k]) && multiset(p[k])['.'] == 0 {
      assert PatternOctet(p[k]);
      assert '.' !in multiset(p[k]);
    }
    var q2 := Join(p[2..], '.');
    var q1 := Join(p[1..], '.');
    assert q2 == p[2] + "." + p[3] by {
      assert p[2..][1..] == [p[3]];
      assert Join(p[2..][1..], '.') == p[3];
    }
    Glue(p[2], p[3]);
    assert q1 == p[1] + "." + q2 by {
      assert p[1..][1..] == p[2..];
    }
    Glue(p[1], q2);
    Glue(p[0], q1);
  }

  lemma Glue(a: string, b: string)
    requires DigitsAndDots(a) && DigitsAndDots(b)
    ensures DigitsAndDots(a + "." + b)
    ensures |a + "." + b| == |a| + |b| + 1
    ensures multiset(a + "." + b)['.'] == multiset(a)['.'] + multiset(b)['.'] + 1
  {
    assert multiset(a + "." + b) == multiset(a) + multiset{'.'} + multiset(b);
  }

  /** A group matches exactly when it is one to three digits denoting at most 255. */
  lemma PatternOctetMeaning(s: string)
    ensures PatternOctet(s) <==> 1 <= |s| <= 3 && AllDigits(s) && DecimalValue(s) <= 255
  {
    if 1 <= |s| <= 3 && AllDigits(s) {
      ThreeDigits(s);
    }
  }

  /** The value of a short digit string, spelled out. */
  lemma ThreeDigits(s: string)
    requires 1 <= |s| <= 3 && AllDigits(s)
    ensures |s| == 1 ==> DecimalValue(s) == DigitValue(s[0])
    ensures |s| == 2 ==> DecimalValue(s) == 10 * DigitValue(s[0]) + DigitValue(s[1])
    ensures |s| == 3 ==> DecimalValue(s) == 100 * DigitValue(s[0]) + 10 * DigitValue(s[1]) + DigitValue(s[2])
  {
    var p1 := s[..|s| - 1];
    assert DecimalValue(s) == 10 * DecimalValue(p1) + DigitValue(s[|s| - 1]);
    if |s| >= 2 {
      var p2 := p1[..|p1| - 1];
      assert DecimalValue(p1) == 10 * DecimalValue(p2) + DigitValue(p1[|p1| - 1]);
      if |s| == 3 {
        assert DecimalValue(p2) == 10 * DecimalValue(p2[..0]) + DigitValue(p2[0]);
      }
    }
  }

  // ------------------------------------------------ the standard IPv4 parser

  /**
   * One field as the standard library's IPv4 parser accepts it: one to three
   * ASCII digits, no leading zero unless the field is "0", value at most 255.
   */
  predicate StrictOctet(s: string) {
    1 <= |s| <= 3 && AllDigits(s) && (|s| == 1 || s[0] != '0') && DecimalValue(s) <= 255
  }

  /** `str::parse::<Ipv4Addr>`: exactly four strict fields separated by dots. */
  function ParseIpv4(s: string): (r: Option<Octets>)
    ensures r.Some? ==> IsDottedQuad(s)
  {
    ParseFields(Split(s, '.'))
  }

  /** The address the four dot-separated fields denote, if each is a strict field. */
  function ParseFields(parts: seq<string>): (r: Option<Octets>)
    ensures r.Some? ==> PatternFields(parts)
  {
    if |parts| == 4 && StrictOctet(parts[0]) && StrictOctet(parts[1])
       && StrictOctet(parts[2]) && StrictOctet(parts[3])
    then
      StrictIsPattern(parts[0]);
      StrictIsPattern(parts[1]);
      StrictIsPattern(parts[2]);
      StrictIsPattern(parts[3]);
      Some([DecimalValue(parts[0]), DecimalValue(parts[1]), DecimalValue(parts[2]), DecimalValue(parts[3])])
    else None
  }

  lemma StrictIsPattern(s: string)
    requires StrictOctet(s)
    ensures PatternOctet(s)
  {
    PatternOctetMeaning(s);
  }

  /** The text `Ipv4Addr` displays: the four octets in decimal, joined by dots. */
  function FormatIpv4(o: Octets): (s: string)
    ensures forall i :: 0 <= i < |s| ==> IsDigit(s[i]) || s[i] == '.'
  {
    var parts := [FormatNat(o[0]), FormatNat(o[1]), FormatNat(o[2]), FormatNat(o[3])];
    JoinChars(parts, '.');
    Join(parts, '.')
  }

  /** Every character of a join comes from a piece or is the separator. */
  lemma {:induction false} JoinChars(parts: seq<string>, sep: char)
    requires 1 <= |parts|
    requires forall k, i :: 0 <= k < |parts| && 0 <= i < |parts[k]| ==> IsDigit(parts[k][i])
    ensures forall i :: 0 <= i < |Join(parts, sep)| ==> IsDigit(Join(parts, sep)[i]) || Join(parts, sep)[i] == sep
  {
    if |parts| > 1 {
      JoinChars(parts[1..], sep);
      assert Join(parts, sep) == parts[0] + [sep] + Join(parts[1..], sep);
    }
  }

  /** A displayed field reads back as the same octet. */
  lemma OctetRoundTrip(n: byte)
    ensures StrictOctet(FormatNat(n)) && DecimalValue(FormatNat(n)) == n
  {
    FormatNatValue(n);
  }

  /** Parsing what `Ipv4Addr` displays gives back the address. */
  lemma Ipv4RoundTrip(o: Octets)
    ensures ParseIpv4(FormatIpv4(o)) == Some(o)
  {
    var parts := OctetTexts(o);
    DigitsSeparatorFree(parts, '.');
    SplitJoin(parts, '.');
    FieldsRoundTrip(o);
  }

  function OctetTexts(o: Octets): (parts: seq<string>)
    ensures |parts| == 4 && forall k :: 0 <= k < 4 ==> AllDigits(parts[k])
    ensures FormatIpv4(o) == Join(parts, '.')
  {
    [FormatNat(o[0]), FormatNat(o[1]), FormatNat(o[2]), FormatNat(o[3])]
  }

  lemma FieldsRoundTrip(o: Octets)
    ensures ParseFields(OctetTexts(o)) == Some(o)
  {
    OctetRoundTrip(o[0]);
    OctetRoundTrip(o[1]);
    OctetRoundTrip(o[2]);
    OctetRoundTrip(o[3]);
    assert o == [o[0], o[1], o[2], o[3]];
  }

  /**
   * The converse fails: a group with a leading zero, such as the `01` of
   * `01.2.3.4`, passes the pattern check and is then refused by the parser.
   */
  lemma LeadingZeroPassesPatternOnly(parts: seq<string>, k: nat)
    requires PatternFields(parts)
    requires k < 4 && |parts[k]| > 1 && parts[k][0] == '0'
    ensures IsDottedQuad(Join(parts, '.')) && ParseIpv4(Join(parts, '.')).None?
  {
    assert !StrictOctet(parts[k]);
    assert ParseFields(parts).None? by {
      assert !(StrictOctet(parts[0]) && StrictOctet(parts[1]) && StrictOctet(parts[2]) && StrictOctet(parts[3]));
    }
    PatternDigits(parts);
    DigitsSeparatorFree(parts, '.');
    SplitJoin(parts, '.');
  }

  lemma PatternDigits(parts: seq<string>)
    requires PatternFields(parts)
    ensures forall k :: 0 <= k < |parts| ==> AllDigits(parts[k])
  {
    forall k | 0 <= k < |parts| ensures AllDigits(parts[k]) {
      assert PatternOctet(parts[k]);
    }
  }

  /** Pieces made of digits hold no separator that is not a digit. */
  lemma DigitsSeparatorFree(parts: seq<string>, sep: char)
    requires !IsDigit(sep)
    requires forall k :: 0 <= k < |parts| ==> AllDigits(parts[k])
    ensures SeparatorFree(parts, sep)
  {
    forall k | 0 <= k < |parts| ensures sep !in parts[k] {
      assert forall i :: 0 <= i < |parts[k]| ==> parts[k][i] != sep;
    }
  }

  // ------------------------------------------------------ host-name lookup

  /** An address a host-name lookup returned. */
  datatype SocketAddr = V4(ip: Octets, port: nat) | V6(text: string, port: nat)

  /** The display text of an IPv4 socket address, `a.b.c.d:port`. */
  function V4Text(ip: Octets, port: nat): string {
    FormatIpv4(ip) + ":" + FormatNat(port)
  }

  /** The text kept from one IPv4 lookup result: everything before its first `:`. */
  function HostPart(ip: Octets, port: nat): string {
    Split(V4Text(ip, port), ':')[0]
  }

  /**
   * The text the lookup loop leaves behind: the host part of the last IPv4
   * result, or the empty string when there is none.
   */
  function LastIpv4(addrs: seq<SocketAddr>): (ipv4: string)
    ensures ipv4 == "" || ParseIpv4(ipv4).Some?
  {
    if addrs == [] then ""
    else
      var last := addrs[|addrs| - 1];
      if last.V4? then
        HostPartIsAddress(last.ip, last.port);
        Ipv4RoundTrip(last.ip);
        HostPart(last.ip, last.port)
      else LastIpv4(addrs[..|addrs| - 1])
  }

  /** The host part of an IPv4 result is its dotted-quad text. */
  lemma HostPartIsAddress(ip: Octets, port: nat)
    ensures HostPart(ip, port) == FormatIpv4(ip)
  {
    var a := FormatIpv4(ip);
    assert forall i :: 0 <= i < |a| ==> a[i] != ':';
    SplitFirst(a, ':', FormatNat(port));
  }

  /** The loop over the lookup results: each IPv4 result overwrites the text kept so far. */
  method SelectIpv4(addrs: seq<SocketAddr>) returns (ipv4: string)
    ensures ipv4 == LastIpv4(addrs)
  {
    ipv4 := "";
    for i := 0 to |addrs|
      invariant ipv4 == LastIpv4(addrs[..i])
    {
      assert addrs[..i + 1][..i] == addrs[..i];
      if addrs[i].V4? {
        var ipPort := V4Text(addrs[i].ip, addrs[i].port);
        var parts := Split(ipPort, ':');
        ipv4 := parts[0];
      }
    }
    assert addrs[..|addrs|] == addrs;
  }

  /** The last IPv4 result is the one that is kept, and it parses back to its address. */
  lemma {:induction false} LastIpv4Parses(addrs: seq<SocketAddr>)
    ensures (forall k :: 0 <= k < |addrs| ==> addrs[k].V6?) ==> LastIpv4(addrs) == ""
    ensures forall k :: 0 <= k < |addrs| && addrs[k].V4? && (forall j :: k < j < |addrs| ==> addrs[j].V6?)
              ==> ParseIpv4(LastIpv4(addrs)) == Some(addrs[k].ip)
  {
    if addrs != [] {
      var init := addrs[..|addrs| - 1];
      var last := addrs[|addrs| - 1];
      LastIpv4Parses(init);
      if last.V4? {
        HostPartIsAddress(last.ip, last.port);
        Ipv4RoundTrip(last.ip);
      } else {
        assert forall k :: 0 <= k < |init| ==> init[k] == addrs[k];
      }
    }
  }

  // ------------------------------------------------------------- resolution

  /** What the host-name lookup of `addr:port` answered: the addresses, or an error. */
  type Lookup = Result<seq<SocketAddr>, string>

  /**
   * The address text `Query::new` settles on: the input itself when it passes
   * the pattern check, otherwise the last IPv4 lookup result, or the empty
   * string when the lookup failed.
   */
  function ResolvedText(addr: string, lookup: Lookup): (t: string)
    ensures IsDottedQuad(addr) ==> t == addr
  {
    if IsDottedQuad(addr) then addr
    else match lookup
      case Success(addrs) => LastIpv4(addrs)
      case Failure(_) => ""
  }

  const INVALID_ADDRESS := "Invalid IP address: invalid IPv4 address syntax"

  /** The address of the new query, or the error text `Query::new` returns. */
  function ResolveAddress(addr: string, lookup: Lookup): (r: Result<Octets, string>)
    ensures r.Failure? ==> r.error == INVALID_ADDRESS
    ensures r.Success? <==> ParseIpv4(ResolvedText(addr, lookup)).Some?
    ensures r.Success? ==> r.value == ParseIpv4(ResolvedText(addr, lookup)).value
  {
    match ParseIpv4(ResolvedText(addr, lookup))
    case Some(o) => Success(o)
    case None => Failure(INVALID_ADDRESS)
  }

  /** A literal address is taken as it is; the lookup answer plays no part. */
  lemma LiteralAddress(o: Octets, lookup: Lookup)
    ensures ResolveAddress(FormatIpv4(o), lookup) == Success(o)
  {
    Ipv4RoundTrip(o);
  }

  /** A failed lookup of a name that is not a dotted quad ends in the address error. */
  lemma FailedLookup(addr: string, message: string)
    requires !IsDottedQuad(addr)
    ensures ResolveAddress(addr, Failure(message)) == Failure(INVALID_ADDRESS)
  {
    assert Split("", '.') == [""];
  }
}
