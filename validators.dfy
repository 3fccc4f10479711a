/**
 * Host validation of the service package: a host is accepted when it is a
 * dotted-quad IPv4 address written without leading zeros, or a domain name
 * whose last label is alphabetic.
 */
module Validators {
  import opened Strings

  const MaxHostLength := 255
  const MaxLabelLength := 63
  const EmptyOrTooLong := "Host name cannot be empty or longer than 255 characters"
  const InvalidFormat := "Invalid host format"

  /** The `(is_valid, error_message)` pair returned to the caller. */
  datatype Verdict = Verdict(valid: bool, reason: string)

  /** One accepted octet: digits only, value at most 255, no leading zero unless it is "0". */
  predicate IsOctet(part: string)
  {
    IsDigitString(part) && Value(part) <= 255 && !(|part| > 1 && part[0] == '0')
  }

  /** `is_ip_address`: exactly four dot-separated parts, each an octet. */
  predicate IsIpAddress(ip: string)
  {
    AreOctets(Split(ip, '.'))
  }

  predicate AreOctets(parts: seq<string>)
  {
    |parts| == 4 && forall i :: 0 <= i < |parts| ==> IsOctet(parts[i])
  }

  /** `[a-zA-Z0-9]([a-zA-Z0-9-]{0,61}[a-zA-Z0-9])?`: 1 to 63 characters, alphanumeric at both ends. */
  predicate IsLabel(piece: string)
  {
    && 1 <= |piece| <= MaxLabelLength
    && IsAlnum(piece[0])
    && IsAlnum(piece[|piece| - 1])
    && forall i :: 0 <= i < |piece| ==> IsAlnum(piece[i]) || piece[i] == '-'
  }

  /** `[a-zA-Z]{2,}`: two or more letters. */
  predicate IsTopLevelLabel(piece: string)
  {
    |piece| >= 2 && forall i :: 0 <= i < |piece| ==> IsLetter(piece[i])
  }

  /**
   * The whole-string language of the domain pattern `L(\.L)*\.T`. Neither L
   * nor T can contain a dot, so a string is in it exactly when splitting it
   * on '.' gives at least two pieces, all but the last being labels L and
   * the last a top-level label T.
   */
  predicate DomainShape(domain: string)
  {
    AreDomainLabels(Split(domain, '.'))
  }

  predicate AreDomainLabels(labels: seq<string>)
  {
    && |labels| >= 2
    && (forall i :: 0 <= i < |labels| - 1 ==> IsLabel(labels[i]))
    && IsTopLevelLabel(labels[|labels| - 1])
  }

  /** `is_valid_domain`: at most 255 characters and the anchored domain pattern matches. */
  predicate IsValidDomain(domain: string)
  {
    |domain| <= MaxHostLength && AnchoredMatch(DomainShape, domain)
  }

  /** `is_valid_host`. */
  function IsValidHost(host: string): (v: Verdict)
    ensures v.valid <==> v.reason == ""
    ensures v.valid <==> 0 < |host| <= MaxHostLength && (IsIpAddress(host) || IsValidDomain(host))
    ensures (host == [] || |host| > MaxHostLength) ==> v.reason == EmptyOrTooLong
    ensures 0 < |host| <= MaxHostLength && !v.valid ==> v.reason == InvalidFormat
  {
    if host == [] || |host| > MaxHostLength then Verdict(false, EmptyOrTooLong)
    else if IsIpAddress(host) then Verdict(true, "")
    else if IsValidDomain(host) then Verdict(true, "")
    else Verdict(false, InvalidFormat)
  }

  /** The four octets a, b, c, d written as `str(a) + "." + ... + str(d)`. */
  function DottedQuad(a: nat, b: nat, c: nat, d: nat): string
  {
    Join([Decimal(a), Decimal(b), Decimal(c), Decimal(d)], '.')
  }

  /** The accepted octets are exactly the decimal renderings of 0..255. */
  lemma OctetIsDecimal(part: string)
    requires IsOctet(part)
    ensures part == Decimal(Value(part))
  {
    DecimalOfValue(part);
  }

  lemma DecimalIsOctet(n: nat)
    requires n <= 255
    ensures IsOctet(Decimal(n))
  {
    ValueOfDecimal(n);
  }

  /** Every dotted quad of values in 0..255 is an accepted IP address and an accepted host. */
  lemma DottedQuadAccepted(a: nat, b: nat, c: nat, d: nat)
    requires a <= 255 && b <= 255 && c <= 255 && d <= 255
    ensures IsIpAddress(DottedQuad(a, b, c, d))
    ensures IsValidHost(DottedQuad(a, b, c, d)) == Verdict(true, "")
  {
    var parts := [Decimal(a), Decimal(b), Decimal(c), Decimal(d)];
    forall i | 0 <= i < 4 ensures IsOctet(parts[i]) && '.' !in parts[i] && |parts[i]| <= 3 {
      DecimalIsOctet([a, b, c, d][i]);
      CanonicalShortIffSmall(parts[i]);
    }
    SplitJoin(parts, '.');
    JoinLength4(parts, '.');
  }

  /** Every accepted IP address is a dotted quad of values in 0..255. */
  lemma IpAddressIsDottedQuad(ip: string)
    requires IsIpAddress(ip)
    ensures var p := Split(ip, '.');
      && Value(p[0]) <= 255 && Value(p[1]) <= 255 && Value(p[2]) <= 255 && Value(p[3]) <= 255
      && ip == DottedQuad(Value(p[0]), Value(p[1]), Value(p[2]), Value(p[3]))
  {
    var p := Split(ip, '.');
    OctetIsDecimal(p[0]);
    OctetIsDecimal(p[1]);
    OctetIsDecimal(p[2]);
    OctetIsDecimal(p[3]);
    assert p == [p[0], p[1], p[2], p[3]];
  }

  lemma JoinLength4(parts: seq<string>, sep: char)
    requires |parts| == 4
    ensures |Join(parts, sep)| == |parts[0]| + |parts[1]| + |parts[2]| + |parts[3]| + 3
  {
    JoinCons(parts, sep);
    JoinCons(parts[1..], sep);
    JoinCons(parts[1..][1..], sep);
    assert parts[1..][1..][1..] == [parts[3]];
  }

  /** An accepted IP address is 7 to 15 characters long. */
  lemma IpAddressLength(ip: string)
    requires IsIpAddress(ip)
    ensures 7 <= |ip| <= 15
  {
    var p := Split(ip, '.');
    forall i | 0 <= i < 4 ensures 1 <= |p[i]| <= 3 {
      OctetIsDecimal(p[i]);
      CanonicalShortIffSmall(p[i]);
    }
    JoinLength4(p, '.');
  }

  predicate IsHostChar(c: char) { IsAlnum(c) || c == '-' || c == '.' }

  lemma DomainShapeAlphabet(domain: string)
    requires DomainShape(domain)
    ensures forall k :: 0 <= k < |domain| ==> IsHostChar(domain[k])
  {
    var labels := Split(domain, '.');
    forall i, j | 0 <= i < |labels| && 0 <= j < |labels[i]| ensures IsHostChar(labels[i][j]) {
      if i < |labels| - 1 {
        assert IsLabel(labels[i]);
      } else {
        assert IsTopLevelLabel(labels[i]);
      }
    }
    JoinAlphabet(labels, '.', IsHostChar);
  }

  lemma IpAddressAlphabet(ip: string)
    requires IsIpAddress(ip)
    ensures forall k :: 0 <= k < |ip| ==> IsDigit(ip[k]) || ip[k] == '.'
  {
    var parts := Split(ip, '.');
    JoinAlphabet(parts, '.', c => IsDigit(c) || c == '.');
  }

  /**
   * Every accepted host is made of letters, digits, '-' and '.', except that
   * a final newline may follow a domain name (Python's `$` matches before it).
   */
  lemma {:induction false} AcceptedHostAlphabet(host: string)
    requires IsValidHost(host).valid
    ensures forall k :: 0 <= k < |host| ==> IsHostChar(host[k]) || (k == |host| - 1 && host[k] == '\n')
  {
    if IsIpAddress(host) {
      IpAddressAlphabet(host);
    } else if DomainShape(host) {
      DomainShapeAlphabet(host);
    } else {
      var core := host[..|host| - 1];
      DomainShapeAlphabet(core);
      assert forall k :: 0 <= k < |core| ==> core[k] == host[k];
    }
  }

  /**
   * A string of digits and dots is never a domain (its last label has no
   * letter), so as a host it is accepted exactly when it is an IP address.
   */
  lemma {:induction false} NumericHostIsIpOrNothing(host: string)
    requires forall k :: 0 <= k < |host| ==> IsDigit(host[k]) || host[k] == '.'
    ensures IsValidHost(host).valid <==> IsIpAddress(host)
  {
    if DomainShape(host) {
      DomainHasLetter(host);
    }
    if IsIpAddress(host) {
      IpAddressLength(host);
    }
  }

  /** The last character of a domain-shaped string is a letter. */
  lemma DomainHasLetter(domain: string)
    requires DomainShape(domain)
    ensures |domain| > 0 && IsLetter(domain[|domain| - 1])
  {
    var labels := Split(domain, '.');
    JoinSuffix(labels, '.');
  }

  /** The join ends with the last piece. */
  lemma {:induction false} JoinSuffix(parts: seq<string>, sep: char)
    requires |parts| >= 1
    ensures var j := Join(parts, sep); |j| >= |parts[|parts| - 1]| && j[|j| - |parts[|parts| - 1]|..] == parts[|parts| - 1]
  {
    if |parts| > 1 {
      JoinSuffix(parts[1..], sep);
    }
  }

  /** Labels and a top-level label joined with dots form an accepted domain, when short enough. */
  lemma DomainFromLabels(labels: seq<string>, top: string)
    requires |labels| >= 1 && forall i :: 0 <= i < |labels| ==> IsLabel(labels[i])
    requires IsTopLevelLabel(top)
    requires |Join(labels + [top], '.')| <= MaxHostLength
    ensures DomainShape(Join(labels + [top], '.'))
    ensures IsValidDomain(Join(labels + [top], '.'))
    ensures IsValidHost(Join(labels + [top], '.')) == Verdict(true, "")
  {
    var parts := labels + [top];
    forall i | 0 <= i < |parts| ensures '.' !in parts[i] {
      if i < |labels| { assert IsLabel(parts[i]); } else { assert parts[i] == top; }
    }
    SplitJoin(parts, '.');
    JoinSuffix(parts, '.');
  }

  /** Four dot-free pieces written with dots between them split back into those pieces. */
  lemma SplitFour(parts: seq<string>, s: string)
    requires |parts| == 4 && forall i :: 0 <= i < 4 ==> '.' !in parts[i]
    requires s == parts[0] + "." + parts[1] + "." + parts[2] + "." + parts[3]
    ensures Split(s, '.') == parts
  {
    assert parts[1..][1..] == parts[2..];
    assert parts[2..][1..] == [parts[3]];
    assert Join(parts[2..], '.') == parts[2] + "." + parts[3];
    assert Join(parts[1..], '.') == parts[1] + "." + (parts[2] + "." + parts[3]);
    assert Join(parts, '.') == parts[0] + "." + (parts[1] + "." + (parts[2] + "." + parts[3]));
    assert s == Join(parts, '.');
    SplitJoin(parts, '.');
  }

  /** Four octets written with dots between them form an accepted host. */
  lemma OctetsAccepted(parts: seq<string>, s: string)
    requires |parts| == 4 && forall i :: 0 <= i < 4 ==> IsOctet(parts[i])
    requires s == parts[0] + "." + parts[1] + "." + parts[2] + "." + parts[3]
    ensures IsIpAddress(s) && IsValidHost(s).valid
  {
    forall i | 0 <= i < 4 ensures '.' !in parts[i] && |parts[i]| <= 3 {
      OctetIsDecimal(parts[i]);
      CanonicalShortIffSmall(parts[i]);
    }
    SplitFour(parts, s);
  }

  lemma ExampleIpAddress()
    ensures IsValidHost("8.8.8.8").valid
  {
    assert IsOctet("8") by { assert "8"[..0] == ""; }
    OctetsAccepted(["8", "8", "8", "8"], "8.8.8.8");
  }

  lemma ExampleZeroAddress()
    ensures IsValidHost("0.0.0.0").valid
  {
    assert IsOctet("0") by { assert "0"[..0] == ""; }
    OctetsAccepted(["0", "0", "0", "0"], "0.0.0.0");
  }

  lemma ExampleOutOfRangeOctet()
    ensures !IsValidHost("256.1.1.1").valid
  {
    SplitFour(["256", "1", "1", "1"], "256.1.1.1");
    assert !IsOctet("256") by { ValueOf256(); }
    assert !IsTopLevelLabel("1");
  }

  lemma ValueOf256()
    ensures Value("256") == 256
  {
    assert "2"[..0] == "";
    assert "25"[..1] == "2";
    assert "256"[..2] == "25";
  }

  lemma ExampleLeadingZero()
    ensures !IsValidHost("01.1.1.1").valid
  {
    SplitFour(["01", "1", "1", "1"], "01.1.1.1");
    assert !IsOctet("01");
    assert !IsTopLevelLabel("1");
  }

  lemma ExampleDomain()
    ensures IsValidHost("example.com").valid
  {
    JoinCons(["example", "com"], '.');
    assert Join(["example"] + ["com"], '.') == "example.com";
    DomainFromLabels(["example"], "com");
  }

  lemma ExampleEmptyLabel()
    ensures IsValidHost("a..b.com") == Verdict(false, InvalidFormat)
  {
    SplitFour(["a", "", "b", "com"], "a..b.com");
    assert !IsLabel("");
    assert !IsOctet("a");
  }

  lemma ExampleSingleLabel()
    ensures IsValidHost("x") == Verdict(false, InvalidFormat)
    ensures IsValidHost("") == Verdict(false, EmptyOrTooLong)
  {
    SplitNoSeparator("x", '.');
  }

  lemma ExampleInvalidHost()
    ensures IsValidHost("not a host!!") == Verdict(false, InvalidFormat)
  {
    SplitNoSeparator("not a host!!", '.');
  }
}
