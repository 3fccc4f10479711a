/**
 * Where the two host checks agree and where they part: the service
 * package's split-based check (`Validators`) against the desktop
 * application's regular-expression check (`Legacy`).
 */
module HostRules {
  import opened Strings
  import Validators
  import Legacy

  /** No group of an IP-shaped string starts with '0' unless it is "0". */
  predicate NoLeadingZeros(host: string)
  {
    var groups := Split(host, '.');
    forall i :: 0 <= i < |groups| ==> !(|groups[i]| > 1 && groups[i][0] == '0')
  }

  /** Every address the service accepts, the application accepts too. */
  lemma IpAddressIsLegacyValid(host: string)
    requires Validators.IsIpAddress(host)
    ensures Legacy.IpShape(host) && Legacy.IsValidHost(host)
  {
    var groups := Split(host, '.');
    forall i | 0 <= i < 4 ensures IsDigitString(groups[i]) && |groups[i]| <= 3 && Value(groups[i]) <= 255 {
      Validators.OctetIsDecimal(groups[i]);
      CanonicalShortIffSmall(groups[i]);
    }
    Validators.IpAddressLength(host);
  }

  /**
   * On four dot-separated groups of one to three digits, the service accepts
   * exactly what the application accepts without a leading zero: the two
   * differ only on groups such as "01".
   */
  lemma {:induction false} IpShapedHosts(host: string)
    requires Legacy.IpShape(host)
    ensures Validators.IsValidHost(host).valid <==> Legacy.IsValidHost(host) && NoLeadingZeros(host)
  {
    var groups := Split(host, '.');
    JoinAlphabet(groups, '.', c => IsDigit(c) || c == '.');
    Validators.NumericHostIsIpOrNothing(host);
    Validators.JoinLength4(groups, '.');
    assert |groups[0]| >= 1;
  }

  /** Every label strictly between the first and the last has at most 63 characters. */
  predicate MiddleLabelsShort(host: string)
  {
    var labels := Split(host, '.');
    forall i :: 1 <= i < |labels| - 1 ==> |labels[i]| <= Validators.MaxLabelLength
  }

  /** Every label strictly between the first and the last is two or more letters. */
  predicate MiddleLabelsAlphabetic(host: string)
  {
    var labels := Split(host, '.');
    forall i :: 1 <= i < |labels| - 1 ==> Validators.IsTopLevelLabel(labels[i])
  }

  /**
   * The two domain patterns differ only in their middle labels: the
   * application's takes letters only but of any length, the service's takes
   * letters, digits and '-' but at most 63 of them.
   */
  lemma DomainShapes(host: string)
    ensures Legacy.DomainShape(host) ==> (Validators.DomainShape(host) <==> MiddleLabelsShort(host))
    ensures Validators.DomainShape(host) ==> (Legacy.DomainShape(host) <==> MiddleLabelsAlphabetic(host))
  {
    var labels := Split(host, '.');
    if Legacy.DomainShape(host) && MiddleLabelsShort(host) {
      forall i | 1 <= i < |labels| - 1 ensures Validators.IsLabel(labels[i]) {
        assert Validators.IsTopLevelLabel(labels[i]);
      }
    }
  }

  /** A string of the application's domain pattern ends in a letter, so it is no address and has no final newline. */
  lemma LegacyDomainEndsInLetter(host: string)
    requires Legacy.DomainShape(host)
    ensures |host| > 0 && IsLetter(host[|host| - 1]) && !Validators.IsIpAddress(host)
  {
    var labels := Split(host, '.');
    Validators.JoinSuffix(labels, '.');
    if |labels| == 4 {
      assert !Validators.IsOctet(labels[3]);
    }
  }

  /**
   * A domain the application's pattern matches is accepted by the service
   * exactly when it is at most 255 characters long and none of its middle
   * labels is longer than 63.
   */
  lemma LegacyDomainsTheServiceAccepts(host: string)
    requires Legacy.DomainShape(host)
    ensures Validators.IsValidHost(host).valid <==> |host| <= Validators.MaxHostLength && MiddleLabelsShort(host)
  {
    LegacyDomainEndsInLetter(host);
    DomainShapes(host);
  }

  /**
   * A domain the service's pattern matches is accepted by the application
   * exactly when it is at most 255 characters long and every middle label is
   * made of two or more letters.
   */
  lemma ServiceDomainsTheApplicationAccepts(host: string)
    requires Validators.DomainShape(host)
    ensures Legacy.IsValidHost(host) <==> |host| <= Validators.MaxHostLength && MiddleLabelsAlphabetic(host)
  {
    var labels := Split(host, '.');
    Validators.DomainHasLetter(host);
    assert !IsDigit(labels[|labels| - 1][0]);
    assert !Legacy.IpShape(host);
    DomainShapes(host);
  }

  /**
   * The application's check gives a string followed by a newline the same
   * verdict as the string itself: `$` matches before the newline and `int()`
   * ignores it.
   */
  lemma {:induction false} LegacyIgnoresFinalNewline(host: string)
    requires host == [] || host[|host| - 1] != '\n'
    requires |host| < Validators.MaxHostLength
    ensures Legacy.IsValidHost(host + "\n") == Legacy.IsValidHost(host)
  {
    var s := host + "\n";
    assert s[..|s| - 1] == host;
    NewlineBreaksLegacyShapes(host);
    assert AnchoredMatch(Legacy.IpShape, s) == Legacy.IpShape(host);
    assert AnchoredMatch(Legacy.DomainShape, s) == Legacy.DomainShape(host);
    if host == [] {
      assert Split(host, '.') == [[]];
      assert !Legacy.IpShape(host) && !Legacy.DomainShape(host);
    } else {
      assert AnchoredMatch(Legacy.IpShape, host) == Legacy.IpShape(host);
      assert AnchoredMatch(Legacy.DomainShape, host) == Legacy.DomainShape(host);
    }
  }

  /** A final newline lands in the last group or label, which neither of the application's patterns allows. */
  lemma NewlineBreaksLegacyShapes(host: string)
    ensures !Legacy.IpShape(host + "\n") && !Legacy.DomainShape(host + "\n")
  {
    var s := host + "\n";
    assert s[..|s| - 1] == host;
    SplitAppend(host, '.', '\n');
    var labels := Split(s, '.');
    var last := labels[|labels| - 1];
    assert last[|last| - 1] == '\n';
  }

  /**
   * The service's check rejects every string that ends in a newline except
   * a domain name followed by one: the address split sees the newline, the
   * anchored domain pattern does not.
   */
  lemma {:induction false} ServiceNewlineQuirk(host: string)
    ensures Validators.IsValidHost(host + "\n").valid <==> |host| < Validators.MaxHostLength && Validators.DomainShape(host)
  {
    var s := host + "\n";
    assert s[..|s| - 1] == host;
    SplitAppend(host, '.', '\n');
    var labels := Split(s, '.');
    var last := labels[|labels| - 1];
    assert last[|last| - 1] == '\n';
    assert !Validators.IsOctet(last);
    assert !Validators.DomainShape(s);
  }

  /**
   * A host whose groups are "01", "1", "1" and "1", that is "01.1.1.1": the
   * application accepts the leading zero, the service does not.
   */
  lemma LeadingZeroHost(host: string)
    requires Split(host, '.') == ["01", "1", "1", "1"]
    ensures Legacy.IsValidHost(host) && !Validators.IsValidHost(host).valid
  {
    LeadingZeroGroups(host);
    IpShapedHosts(host);
  }

  lemma LeadingZeroGroups(host: string)
    requires Split(host, '.') == ["01", "1", "1", "1"]
    ensures 0 < |host| <= Validators.MaxHostLength
    ensures Legacy.IpShape(host) && Legacy.GroupsInRange(host) && !NoLeadingZeros(host)
  {
    var groups := Split(host, '.');
    LeadingZeroQuad();
    assert groups[0][0] == '0';
    Validators.JoinLength4(groups, '.');
  }

  lemma LeadingZeroQuad()
    ensures Legacy.IsQuad(["01", "1", "1", "1"]) && Legacy.AllAtMost255(["01", "1", "1", "1"])
  {
    assert "01"[..1] == "0" && "0"[..0] == "" && "1"[..0] == "";
  }

  lemma ExampleLeadingZero()
    ensures Legacy.IsValidHost("01.1.1.1")
    ensures !Validators.IsValidHost("01.1.1.1").valid
  {
    Validators.SplitFour(["01", "1", "1", "1"], "01.1.1.1");
    LeadingZeroHost("01.1.1.1");
  }

  /**
   * A host whose labels are "a", "b1" and "com", that is "a.b1.com": the
   * service accepts a digit in a middle label, the application does not.
   */
  lemma DigitInMiddleLabel(host: string)
    requires Split(host, '.') == ["a", "b1", "com"]
    ensures Validators.IsValidHost(host).valid && !Legacy.IsValidHost(host)
  {
    var labels := Split(host, '.');
    JoinCons(labels, '.');
    JoinCons(labels[1..], '.');
    assert labels[1..][1..] == ["com"];
    assert |host| == 8;
    assert Validators.IsLabel("a") && Validators.IsLabel("b1") && Validators.IsTopLevelLabel("com");
    assert Validators.DomainShape(host);
    Validators.DomainHasLetter(host);
    assert !Validators.IsTopLevelLabel("b1");
    assert !Legacy.IpShape(host) && !Legacy.DomainShape(host);
  }

  /**
   * A host whose labels are "a", 64 letters 'b' and "com": the application
   * accepts the long middle label, the service does not (63 at most).
   */
  lemma LongMiddleLabel(host: string)
    requires Split(host, '.') == ["a", seq(64, _ => 'b'), "com"]
    ensures Legacy.IsValidHost(host) && !Validators.IsValidHost(host).valid
  {
    var labels := Split(host, '.');
    var long := labels[1];
    JoinCons(labels, '.');
    JoinCons(labels[1..], '.');
    assert labels[1..][1..] == ["com"];
    assert |host| == 70;
    Validators.JoinSuffix(labels, '.');
    assert host[|host| - 1] == 'm';
    assert Validators.IsTopLevelLabel(long) && !Validators.IsLabel(long);
    assert Validators.IsLabel("a") && Validators.IsTopLevelLabel("com");
    assert Legacy.DomainShape(host) && !Legacy.IpShape(host);
    assert !Validators.DomainShape(host) && !Validators.IsIpAddress(host);
  }

  /**
   * A host whose groups are "1", "2", "3" and "4", that is "1.2.3.4",
   * followed by a newline: the application accepts it, the service does not.
   */
  lemma AddressWithNewline(host: string)
    requires Split(host, '.') == ["1", "2", "3", "4"]
    ensures Legacy.IsValidHost(host + "\n") && !Validators.IsValidHost(host + "\n").valid
  {
    var groups := Split(host, '.');
    assert Validators.IsIpAddress(host) by {
      assert "1"[..0] == "" && "2"[..0] == "" && "3"[..0] == "" && "4"[..0] == "";
    }
    Validators.IpAddressLength(host);
    Validators.JoinSuffix(groups, '.');
    assert host[|host| - 1] == '4';
    IpAddressIsLegacyValid(host);
    LegacyIgnoresFinalNewline(host);
    ServiceNewlineQuirk(host);
    assert !Validators.IsTopLevelLabel("4");
  }

  lemma ExampleDomainShape()
    ensures Validators.DomainShape("example.com")
  {
    JoinCons(["example", "com"], '.');
    assert ["example"] + ["com"] == ["example", "com"];
    assert Join(["example", "com"], '.') == "example.com";
    Validators.DomainFromLabels(["example"], "com");
  }

  /** "example.com" followed by a newline: the service accepts it. */
  lemma ExampleDomainWithNewline()
    ensures Validators.IsValidHost("example.com\n").valid
  {
    ExampleDomainShape();
    assert "example.com" + "\n" == "example.com\n";
    ServiceNewlineQuirk("example.com");
  }
}
