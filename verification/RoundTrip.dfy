/** Printing and parsing undo each other, with the exact condition under which they do. */
module RoundTrip {
  import opened Text
  import opened Numerals
  import opened Entities
  import opened Grammar

  /** What may come after an entity inside a printed statement. */
  predicate Follows(r: string) {
    r == "" || r[0] == ',' || r[0] == ')' || In(r[0], Blank)
  }

  predicate IsName(s: string) {
    |s| >= 1 && IsAlpha(s[0]) && AllIn(s, NameTail)
  }

  /** Labels with a dot after each, then letters. */
  predicate IsDomainText(s: string) {
    var n := LabelLength(s);
    if n < |s| then n > 0 && s[n] == '.' && IsDomainText(s[n + 1..])
    else n > 0 && AllIn(s, Alpha)
  }

  predicate IsEmailText(s: string) {
    var n := Span(s, Local);
    0 < n < |s| && s[n] == '@' && IsDomainText(s[n + 1..])
  }

  /** `AS` and a number that fits 32 bits: text the AS alternative takes first. */
  predicate StartsLikeAs(s: string) {
    Starts(s, "AS") &&
    var n := Span(s[2..], Digit);
    n > 0 && Value(s[2..2 + n], 10) < 0x1_0000_0000
  }

  /** Exactly the entities whose text reads back, see `EntityRoundTrip`. */
  predicate Printable(e: Entity) {
    match e
    case Domain(s) => IsDomainText(s) && !StartsLikeAs(s)
    case EMail(s) => IsEmailText(s)
    case AS(_) => true
    case IPv4(_) => true
    case IPv6(c) => var t := Ipv6Text(c); |t| > 0 && IsDigit(t[0])
    case Signer(k) => k.scheme == Secp256k1 && ValidKey(k)
    case Url(_) => false
    case HashValue(s) => IsBase64(s)
    case TemplateEntity(t) =>
      IsName(t.name) && t.entityTypes != [] && forall ts | ts in t.entityTypes :: ts != []
  }

  /* ---- lengths of recognized prefixes ---- */

  lemma NameLengthIs(s: string, r: string)
    requires IsName(s)
    requires r == "" || !In(r[0], NameTail)
    ensures NameLength(s + r) == |s|
  {
    var i := s + r;
    var a := Span(i, Alpha);
    assert i[0] == s[0] && (|s| < |i| ==> i[|s|] == r[0]);
    SpanIs(i[a..], |s| - a, NameTail);
  }

  lemma NameRead(i: string)
    requires NameLength(i) > 0
    ensures IsName(i[..NameLength(i)])
  {
    var a := Span(i, Alpha);
    var n := NameLength(i);
    forall k | 0 <= k < n ensures In(i[k], NameTail) {
      if k >= a { assert i[a..][k - a] == i[k]; }
    }
  }

  lemma LabelLengthIs(s: string, n: nat, r: string)
    requires LabelLength(s) == n
    requires n < |s| || r == "" || !In(r[0], LabelTail)
    ensures LabelLength(s + r) == n
  {
    var i := s + r;
    var a := Span(s, Alnum);
    if s == "" {
      assert i == r;
    } else {
      assert a < |i| && a == |s| ==> i[a] == r[0];
      SpanIs(i, a, Alnum);
      if a > 0 {
        var b := Span(s[a..], LabelTail);
        assert i[a..] == s[a..] + r;
        SpanIs(i[a..], b, LabelTail);
      }
    }
  }

  lemma {:induction false} DomainLengthIs(s: string, r: string)
    requires IsDomainText(s)
    requires r == "" || !(In(r[0], LabelTail) || r[0] == '.')
    ensures DomainLength(s + r) == |s| > 0
  {
    hide LabelLength, Span;
    var n := LabelLength(s);
    LabelLengthIs(s, n, r);
    if n < |s| {
      DomainLengthIs(s[n + 1..], r);
      assert (s + r)[n + 1..] == s[n + 1..] + r;
    } else {
      SpanIs(s + r, |s|, Alpha);
    }
  }

  lemma {:induction false} DomainRead(i: string)
    requires DomainLength(i) > 0
    ensures IsDomainText(i[..DomainLength(i)])
  {
    hide IsDomainText, LabelLength, Span;
    var n := LabelLength(i);
    if n > 0 && n < |i| && i[n] == '.' {
      DomainRead(i[n + 1..]);
      FirstLabelRead(i, n, DomainLength(i));
    } else {
      LettersRead(i[..DomainLength(i)]);
    }
  }

  lemma FirstLabelRead(i: string, n: nat, d: nat)
    requires LabelLength(i) == n && 0 < n < |i| && i[n] == '.' && n + 1 < d <= |i|
    requires IsDomainText(i[n + 1..][..d - n - 1])
    ensures IsDomainText(i[..d])
  {
    LabelOfPrefix(i, n, d);
    hide LabelLength, IsDomainText;
    assert i[..d][n + 1..] == i[n + 1..][..d - n - 1];
    LabelThenDomain(i[..d], n);
  }

  lemma LabelThenDomain(s: string, n: nat)
    requires LabelLength(s) == n && 0 < n < |s| && s[n] == '.' && IsDomainText(s[n + 1..])
    ensures IsDomainText(s)
  {
  }

  lemma LettersRead(s: string)
    requires s != "" && forall k | 0 <= k < |s| :: IsAlpha(s[k])
    ensures IsDomainText(s)
  {
    SpanIs(s, |s|, Alnum);
  }

  lemma LabelOfPrefix(i: string, n: nat, d: nat)
    requires LabelLength(i) == n < d <= |i|
    ensures LabelLength(i[..d]) == n
  {
    var a := Span(i, Alnum);
    SpanIs(i[..d], a, Alnum);
    if a > 0 {
      assert i[..d][a..] == i[a..d];
      SpanIs(i[a..d], n - a, LabelTail);
    }
  }

  lemma {:induction false} DomainChars(s: string)
    requires IsDomainText(s)
    ensures s != "" && forall k | 0 <= k < |s| :: In(s[k], LabelTail) || s[k] == '.'
  {
    var n := LabelLength(s);
    var a := Span(s, Alnum);
    forall k | 0 <= k < n ensures In(s[k], LabelTail) {
      if k >= a { assert s[a..][k - a] == s[k]; }
    }
    if n < |s| {
      DomainChars(s[n + 1..]);
      assert forall k | n < k < |s| :: s[k] == s[n + 1..][k - n - 1];
    }
  }

  lemma Base64LengthIs(s: string, r: string)
    requires IsBase64(s)
    requires Follows(r)
    ensures Base64Length(s + r) == |s|
  {
    var i := s + r;
    var n := Span(s, Base64Body);
    SpanIs(i, n, Base64Body) by { if n < |s| { assert i[n] == s[n]; } }
    assert i[n..] == s[n..] + r;
    SpanIs(i[n..], |s| - n, Pad);
  }

  lemma Base64Read(i: string)
    requires Base64Length(i) > 0
    ensures IsBase64(i[..Base64Length(i)])
  {
    var a := Span(i, Base64Body);
    var n := Base64Length(i);
    SpanIs(i[..n], a, Base64Body) by {
      if a < n { assert i[a..][0] == i[a]; }
    }
    assert i[..n][a..] == i[a..n];
    SpanIs(i[a..n], n - a, Pad) by {
      assert forall k | 0 <= k < n - a :: i[a..n][k] == i[a..][k];
    }
  }

  lemma Base64Chars(s: string)
    requires IsBase64(s)
    ensures |s| > 0
    ensures forall k | 0 <= k < |s| :: In(s[k], Base64Body) || s[k] == '='
  {
    var n := Span(s, Base64Body);
    assert forall k | n <= k < |s| :: s[k] == s[n..][k - n];
  }

  /** Text without `@` among local-part characters is not an e-mail address. */
  lemma NotEmail(s: string, r: string)
    requires AllIn(s, Local)
    requires r == "" || (!In(r[0], Local) && r[0] != '@')
    ensures EmailLength(s + r) == 0
  {
    SpanIs(s + r, |s|, Local);
  }

  lemma NameLengthStops(i: string, n: nat)
    requires n < |i| ==> !In(i[n], NameTail)
    ensures NameLength(i) <= n
  {
    var a := Span(i, Alpha);
    SpanStops(i, n, Alpha);
    if a <= n { SpanStops(i[a..], n - a, NameTail); }
  }

  lemma LabelLengthStops(i: string, n: nat)
    requires n < |i| ==> !In(i[n], LabelTail)
    ensures LabelLength(i) <= n
  {
    var a := Span(i, Alnum);
    SpanStops(i, n, Alnum);
    if a <= n { SpanStops(i[a..], n - a, LabelTail); }
  }

  lemma NotHash(s: string, r: string)
    requires s != "" && s[0] != '#'
    ensures ParseHashValue(s + r).Err?
  {
    hide EmailLength, Base64Length;
    assert (s + r)[0] == s[0];
  }

  lemma NotTemplate(s: string, r: string)
    requires '(' !in s
    requires Follows(r)
    ensures ParseTemplate(s + r).Err?
  {
    var i := s + r;
    assert |s| < |i| ==> i[|s|] == r[0];
    NameLengthStops(i, |s|);
    var n := NameLength(i);
    assert n < |i| ==> i[n..][0] == if n < |s| then s[n] else r[0];
  }

  /** The AS alternative looks no further than the entity's own text. */
  lemma AsnSees(s: string, r: string)
    requires s != "" && Follows(r)
    ensures ParseAsn(s + r).Err? <==> !StartsLikeAs(s)
  {
    var i := s + r;
    assert i[0] == s[0];
    assert |i| > 1 ==> i[1] == if |s| > 1 then s[1] else r[0];
    hide Span, Value;
    if |s| >= 2 { DigitsSeen(s, r); }
  }

  lemma DigitsSeen(s: string, r: string)
    requires |s| >= 2 && Follows(r)
    ensures var n := Span(s[2..], Digit);
            Span((s + r)[2..], Digit) == n && (s + r)[2..2 + n] == s[2..2 + n]
  {
    var n := Span(s[2..], Digit);
    assert (s + r)[2..] == s[2..] + r;
    SpanIs((s + r)[2..], n, Digit);
  }

  lemma NotSigner(s: string, r: string)
    requires ':' !in s
    requires Follows(r)
    ensures ParseSigner(s + r).Err?
  {
    var i := s + r;
    assert |i| > 9 ==> |s| <= 9 ==> i[|s|] == r[0];
    assert |s| > 9 ==> i[9] == s[9];
  }

  lemma {:induction false} NotDomain(s: string, r: string)
    requires forall k | 0 <= k < |s| :: !IsAlpha(s[k])
    requires Follows(r)
    ensures DomainLength(s + r) == 0
  {
    hide LabelLength, Span;
    var i := s + r;
    var n := LabelLength(i);
    assert |s| < |i| ==> i[|s|] == r[0];
    LabelLengthStops(i, |s|);
    SpanStops(i, 0, Alpha);
    if n < |s| && i[n] == '.' {
      NotDomain(s[n + 1..], r);
      assert i[n + 1..] == s[n + 1..] + r;
    }
  }

  /* ---- one lemma per kind of entity ---- */

  /** With the alternatives before it refused, `domain` decides. */
  lemma DomainIsTried(i: string)
    requires EmailLength(i) == 0 && ParseHashValue(i).Err? && ParseTemplate(i).Err?
    requires ParseAsn(i).Err? && ParseSigner(i).Err?
    ensures ParseDomain(i).Ok? ==> ParseEntity(i) == ParseDomain(i)
  {
    hide EmailLength, ParseHashValue, ParseTemplate, ParseAsn, ParseSigner, ParseDomain, ParseIpv4, ParseIpv6;
  }

  lemma FollowsIsNoLocal(r: string)
    requires Follows(r)
    ensures r != "" ==> !In(r[0], Local) && r[0] != '@'
  {
  }

  lemma DomainIsLocal(s: string)
    requires IsDomainText(s)
    ensures s != "" && s[0] != '#' && AllIn(s, Local) && '(' !in s && ':' !in s
  {
    hide IsDomainText;
    DomainChars(s);
    forall k | 0 <= k < |s| ensures In(s[k], Local) && s[k] != '(' && s[k] != ':' && s[k] != '#' {
      assert In(s[k], LabelTail) || s[k] == '.';
    }
  }

  /** Domain characters start neither a hash, a template nor a signer. */
  lemma DomainIsNothingElse(s: string, r: string)
    requires IsDomainText(s) && Follows(r)
    ensures s != ""
    ensures EmailLength(s + r) == 0 && ParseHashValue(s + r).Err? && ParseTemplate(s + r).Err? && ParseSigner(s + r).Err?
  {
    hide IsDomainText, EmailLength, ParseHashValue, ParseTemplate, ParseSigner, Follows, In, AllIn;
    DomainIsLocal(s);
    FollowsIsNoLocal(r);
    NotHash(s, r);
    NotEmail(s, r);
    NotTemplate(s, r);
    NotSigner(s, r);
  }

  lemma DomainReads(s: string, r: string)
    requires IsDomainText(s) && Follows(r)
    requires !StartsLikeAs(s)
    ensures ParseEntity(s + r) == Ok(r, Domain(s))
  {
    hide IsDomainText, DomainLength, StartsLikeAs, EmailLength, ParseEntity, ParseHashValue, ParseTemplate, ParseAsn,
      ParseSigner;
    var i := s + r;
    DomainIsNothingElse(s, r);
    AsnSees(s, r);
    DomainLengthIs(s, r);
    assert i[..|s|] == s && i[|s|..] == r;
    DomainIsTried(i);
  }

  lemma EmailReads(s: string, r: string)
    requires IsEmailText(s) && Follows(r)
    ensures ParseEntity(s + r) == Ok(r, EMail(s))
  {
    hide IsDomainText, DomainLength, ParseHashValue, ParseTemplate, ParseAsn, ParseSigner, ParseDomain,
      ParseIpv4, ParseIpv6;
    var i := s + r;
    var n := Span(s, Local);
    SpanIs(i, n, Local);
    DomainLengthIs(s[n + 1..], r);
    assert i[n + 1..] == s[n + 1..] + r;
    assert i[..|s|] == s && i[|s|..] == r;
  }

  lemma HashReads(s: string, r: string)
    requires IsBase64(s) && Follows(r)
    ensures ParseEntity("#" + s + r) == Ok(r, HashValue(s))
  {
    hide IsBase64, Base64Length, EmailLength, ParseTemplate, ParseAsn, ParseSigner, ParseDomain, ParseIpv4, ParseIpv6;
    Base64Chars(s);
    var i := "#" + s + r;
    NotEmail("#" + s, r);
    NotEmail(s, r);
    assert i[1..] == s + r;
    Base64LengthIs(s, r);
    assert (s + r)[..|s|] == s && (s + r)[|s|..] == r;
  }

  lemma SignerParse(t: string, r: string)
    requires ValidKey(PublicKey(Secp256k1, t)) && Follows(r)
    ensures ParseSigner(SECP + t + r) == Ok(r, Signer(PublicKey(Secp256k1, t)))
  {
    hide IsBase64, Base64Length;
    Base64Chars(t);
    assert (SECP + t + r)[10..] == t + r;
    Base64LengthIs(t, r);
    assert (t + r)[..|t|] == t && (t + r)[|t|..] == r;
  }

  lemma SignerIsTried(i: string)
    requires i != "" && i[0] == 's' && EmailLength(i) == 0 && ParseTemplate(i).Err?
    ensures ParseSigner(i).Ok? ==> ParseEntity(i) == ParseSigner(i)
  {
    hide EmailLength, ParseTemplate, ParseSigner, ParseDomain, ParseIpv4, ParseIpv6, Base64Length, Span, Value;
  }

  lemma SignerReads(t: string, r: string)
    requires ValidKey(PublicKey(Secp256k1, t)) && Follows(r)
    ensures ParseEntity(SECP + t + r) == Ok(r, Signer(PublicKey(Secp256k1, t)))
  {
    hide IsBase64, EmailLength, ParseEntity, ParseTemplate, ParseSigner;
    SignerParse(t, r);
    Base64Chars(t);
    var i := SECP + t + r;
    assert i == "secp256k1" + (":" + t + r);
    NotEmail("secp256k1", ":" + t + r);
    NotTemplate(SECP + t, r);
    SignerIsTried(i);
  }

  lemma AsReads(n: U32, r: string)
    requires Follows(r)
    ensures ParseEntity("AS" + Decimal(n) + r) == Ok(r, AS(n))
  {
    hide Decimal, Value, Span, EmailLength, ParseHashValue, ParseTemplate, ParseSigner, ParseDomain, ParseIpv4, ParseIpv6, Follows, In,
      AllIn;
    var d := Decimal(n);
    var s := "AS" + d;
    var i := s + r;
    AsIsLocal(n);
    FollowsIsNoLocal(r);
    NotHash(s, r);
    NotEmail(s, r);
    NotTemplate(s, r);
    assert i[2..] == d + r;
    DigitsThenMore(d, r);
    assert i[2..2 + |d|] == d && i[2 + |d|..] == r;
    assert i[0] == 'A' && i[1] == 'S';
  }

  lemma AsIsLocal(n: U32)
    ensures Value(Decimal(n), 10) == n
    ensures var d := Decimal(n); d != "" && AllIn(d, Digit) && AllIn("AS" + d, Local) && '(' !in "AS" + d
  {
    hide Value;
    ValueOfDigits(n, 10);
    assert forall k | 0 <= k < |Decimal(n)| :: IsDigit(Decimal(n)[k]);
  }

  lemma DigitsThenMore(d: string, r: string)
    requires AllIn(d, Digit) && Follows(r)
    ensures Span(d + r, Digit) == |d|
  {
    SpanIs(d + r, |d|, Digit);
  }

  /* ---- network addresses ---- */

  lemma {:induction false} DottedReads(parts: seq<string>, t: string)
    requires |parts| >= 1
    requires forall k | 0 <= k < |parts| :: parts[k] != "" && AllIn(parts[k], Digit)
    requires t == "" || !IsDigit(t[0])
    ensures DottedDigits(Join(parts, '.') + t, |parts|) == Ok(t, parts)
  {
    if |parts| == 1 {
      DigitsSpan(parts[0], t);
      assert parts == [parts[0]];
    } else {
      hide DottedDigits, AllIn;
      DottedReads(parts[1..], t);
      DottedHead(parts, t);
    }
  }

  lemma DottedHead(parts: seq<string>, t: string)
    requires |parts| > 1 && parts[0] != "" && AllIn(parts[0], Digit)
    requires DottedDigits(Join(parts[1..], '.') + t, |parts| - 1) == Ok(t, parts[1..])
    ensures DottedDigits(Join(parts, '.') + t, |parts|) == Ok(t, parts)
  {
    hide Span, AllIn, DottedDigits;
    var j := Join(parts[1..], '.') + t;
    assert Join(parts, '.') + t == parts[0] + ['.'] + j;
    hide Join;
    DigitsThenDot(parts[0], j);
    DottedStep(parts[0] + ['.'] + j, |parts|, |parts[0]|, t, parts[1..]);
    assert parts == [parts[0]] + parts[1..];
  }

  lemma DigitsThenDot(d: string, j: string)
    requires AllIn(d, Digit)
    ensures var i := d + ['.'] + j;
            Span(i, Digit) == |d| && i[|d|] == '.' && i[..|d|] == d && i[|d| + 1..] == j
  {
    SpanIs(d + ['.'] + j, |d|, Digit);
  }

  lemma DottedStep(i: string, k: nat, n: nat, rest: string, ds: seq<string>)
    requires k > 1 && Span(i, Digit) == n && 0 < n < |i| && i[n] == '.'
    requires DottedDigits(i[n + 1..], k - 1) == Ok(rest, ds)
    ensures DottedDigits(i, k) == Ok(rest, [i[..n]] + ds)
  {
  }

  lemma DigitsSpan(d: string, t: string)
    requires AllIn(d, Digit) && (t == "" || !IsDigit(t[0]))
    ensures Span(d + t, Digit) == |d| && (d + t)[..|d|] == d && (d + t)[|d|..] == t
  {
    SpanIs(d + t, |d|, Digit);
  }

  lemma MaskReads(c: Cidr, width: nat, r: string)
    requires Follows(r) && ValidCidr(c, width)
    ensures var (rest, mask) := ReadMask(MaskText(c, width) + r);
            rest == r && MakeCidr(c.address, mask, width) == Ok("", c)
  {
    hide Digits, Value, Span, Pow;
    if c.length != width {
      var d := Decimal(c.length);
      var i := MaskText(c, width) + r;
      assert i[1..] == d + r;
      SpanIs(d + r, |d|, Digit);
      assert i[1..1 + |d|] == d && i[1 + |d|..] == r;
      ValueOfDigits(c.length, 10);
    } else {
      assert MaskText(c, width) + r == r;
    }
  }

  lemma OctetsRead(address: nat)
    requires address < Pow(256, 4)
    ensures var parts := Texts(Decimal, Fixed(address, 256, 4));
            && (forall k | 0 <= k < 4 :: IsOctet(parts[k]))
            && Unfixed(Octets(parts), 256) == address
  {
    hide Digits, Value, Fixed;
    var ds := Fixed(address, 256, 4);
    forall k | 0 <= k < 4 ensures IsOctet(Decimal(ds[k])) && Value(Decimal(ds[k]), 10) == ds[k] {
      ValueOfDigits(ds[k], 10);
      assert Pow(10, 3) == 1000;
      DigitsLength(ds[k], 10, 3);
    }
    assert Octets(Texts(Decimal, ds)) == ds;
    UnfixedOfFixed(address, 256, 4);
  }

  lemma Ipv4Chars(c: Cidr4)
    ensures var s := Ipv4Text(c); s != "" && forall k | 0 <= k < |s| :: IsDigit(s[k]) || s[k] == '.' || s[k] == '/'
  {
    hide Digits, Fixed, Join;
    var parts := Texts(Decimal, Fixed(c.address, 256, 4));
    var a := Ipv4AddressText(c.address);
    forall k | 0 <= k < |a| ensures IsDigit(a[k]) || a[k] == '.' {
      JoinChars(parts, '.', a[k]);
    }
    JoinLength(parts, '.');
  }

  lemma {:induction false} JoinLength(parts: seq<string>, c: char)
    requires parts != []
    ensures |Join(parts, c)| >= |parts[0]|
    ensures parts[0] != [] ==> Join(parts, c)[0] == parts[0][0]
  {
  }

  lemma Ipv4Parse(c: Cidr4, r: string)
    requires Follows(r)
    ensures ParseIpv4(Ipv4Text(c) + r) == Ok(r, IPv4(c))
  {
    hide Digits, Fixed, Join, Value, DottedDigits, ReadMask, MakeCidr, IsOctet, Octets, Unfixed, MaskText;
    PowOfPow(8, 4);
    assert Pow(2, 8) == 256;
    var parts := Texts(Decimal, Fixed(c.address, 256, 4));
    var m := MaskText(c, 32);
    assert m + r == "" || !IsDigit((m + r)[0]) by { MaskStarts(c, 32, r); }
    DottedReads(parts, m + r);
    assert Ipv4Text(c) + r == Join(parts, '.') + (m + r);
    OctetsRead(c.address);
    MaskReads(c, 32, r);
  }

  lemma MaskStarts(c: Cidr, width: nat, r: string)
    requires Follows(r)
    ensures var t := MaskText(c, width) + r; t == "" || t[0] in "/,) \t"
  {
  }

  lemma Ipv4IsLocal(c: Cidr4)
    ensures var s := Ipv4Text(c);
            && s != "" && s[0] != '#' && s[0] != 'A' && AllIn(s, Local) && '(' !in s && ':' !in s
            && forall k | 0 <= k < |s| :: !IsAlpha(s[k])
  {
    hide Ipv4Text;
    var s := Ipv4Text(c);
    Ipv4Chars(c);
    forall k | 0 <= k < |s| ensures In(s[k], Local) && !IsAlpha(s[k]) && s[k] != '(' && s[k] != ':' && s[k] != '#' {
      assert IsDigit(s[k]) || s[k] == '.' || s[k] == '/';
    }
  }

  lemma Ipv4Reads(c: Cidr4, r: string)
    requires Follows(r)
    ensures ParseEntity(Ipv4Text(c) + r) == Ok(r, IPv4(c))
  {
    hide Ipv4Text, EmailLength, DomainLength, ParseTemplate, ParseAsn, ParseSigner, ParseIpv4, ParseIpv6, StartsLikeAs, Follows, In,
      AllIn, ParseHashValue;
    var s := Ipv4Text(c);
    Ipv4IsLocal(c);
    FollowsIsNoLocal(r);
    NotHash(s, r);
    assert (s + r)[0] == s[0];
    NotEmail(s, r);
    NotTemplate(s, r);
    AsnSees(s, r);
    assert !StartsLikeAs(s) by { NotLikeAs(s); }
    NotSigner(s, r);
    NotDomain(s, r);
    Ipv4Parse(c, r);
  }

  lemma NotLikeAs(s: string)
    requires s == "" || s[0] != 'A'
    ensures !StartsLikeAs(s)
  {
  }

  lemma {:induction false} DoubleColonIs(s: string, n: nat)
    requires n <= |s|
    requires forall k | 0 <= k < n && k + 1 < |s| :: s[k] != ':' || s[k + 1] != ':'
    requires n < |s| ==> n + 1 < |s| && s[n] == ':' && s[n + 1] == ':'
    ensures DoubleColon(s) == n
  {
    if n > 0 && |s| >= 2 {
      assert s[0] != ':' || s[1] != ':';
      DoubleColonIs(s[1..], n - 1);
    }
  }

  /** Joined groups never hold two colons in a row, nor one at either end. */
  lemma {:induction false} JoinedGroups(parts: seq<string>)
    requires parts != [] && forall p | p in parts :: IsGroup(p)
    ensures var j := Join(parts, ':');
            && j != "" && j[0] != ':' && j[|j| - 1] != ':'
            && AllIn(j, HexColon)
            && (forall k | 0 <= k < |j| - 1 :: j[k] != ':' || j[k + 1] != ':')
            && (|parts| > 1 ==> |parts[0]| < |j| && j[|parts[0]|] == ':')
  {
    var p := parts[0];
    assert IsGroup(p);
    if |parts| > 1 {
      JoinedGroups(parts[1..]);
      var rest := Join(parts[1..], ':');
      var j := Join(parts, ':');
      assert j == p + [':'] + rest;
      forall k | 0 <= k < |j| - 1 ensures j[k] != ':' || j[k + 1] != ':' {
        if k > |p| { assert j[k] == rest[k - |p| - 1] && j[k + 1] == rest[k - |p|]; }
      }
    }
  }

  lemma GroupReads(g: nat)
    requires g < 65536
    ensures IsGroup(HexGroup(g)) && Value(HexGroup(g), 16) == g
  {
    ValueOfDigits(g, 16);
    SixteenBits();
    DigitsLength(g, 16, 4);
  }

  lemma GroupHasNoColon(p: string)
    requires IsGroup(p)
    ensures ':' !in p
  {
    assert forall k | 0 <= k < |p| :: In(p[k], Hex);
  }

  lemma GroupsRead(gs: seq<nat>)
    requires forall k | 0 <= k < |gs| :: gs[k] < 65536
    ensures ReadGroups(GroupsText(gs)) == Ok("", gs)
    ensures gs != [] ==> forall p | p in Texts(HexGroup, gs) :: IsGroup(p)
  {
    hide Digits, Value, Split, Join, HexGroup, IsGroup, AllIn, In, GroupValues;
    PartsAreGroups(gs);
    if gs == [] {
      assert GroupsText(gs) == "" by { JoinNone(':'); }
      NoGroups();
    } else {
      PartsSplit(Texts(HexGroup, gs));
    }
  }

  lemma NoGroups()
    ensures ReadGroups("") == Ok("", [])
  {
  }

  lemma PartsAreGroups(gs: seq<nat>)
    requires forall k | 0 <= k < |gs| :: gs[k] < 65536
    ensures var parts := Texts(HexGroup, gs);
            (forall p | p in parts :: IsGroup(p)) && GroupValues(parts) == gs
  {
    hide Digits, Value, HexGroup, IsGroup;
    var parts := Texts(HexGroup, gs);
    forall k | 0 <= k < |gs| ensures IsGroup(parts[k]) && Value(parts[k], 16) == gs[k] {
      GroupReads(gs[k]);
    }
    assert GroupValues(parts) == gs;
  }

  lemma PartsSplit(parts: seq<string>)
    requires parts != [] && forall p | p in parts :: IsGroup(p)
    ensures Join(parts, ':') != "" && Split(Join(parts, ':'), ':') == parts
  {
    hide Split, Join, IsGroup, In, AllIn;
    JoinedGroups(parts);
    forall p | p in parts ensures ':' !in p { GroupHasNoColon(p); }
    SplitJoinClean(parts, ':');
  }

  lemma JoinNone(c: char)
    ensures Join([], c) == ""
  {
  }

  predicate AreGroups(gs: seq<nat>) {
    forall k | 0 <= k < |gs| :: gs[k] < 65536
  }

  lemma CompressedReads(head: seq<nat>, n: nat, tail: seq<nat>)
    requires AreGroups(head) && AreGroups(tail)
    requires head != [] && n >= 2 && |head| + n + |tail| == 8
    ensures var a := GroupsText(head) + "::" + GroupsText(tail);
            && Ipv6Groups(a) == Ok("", head + Zeros(n) + tail)
            && |GroupsText(head)| < |a| && AllIn(a, HexColon)
  {
    hide Digits, Value, Join, Split, Texts, DoubleColon, ReadGroups, GroupsText;
    var h, t := GroupsText(head), GroupsText(tail);
    GroupsRead(head);
    GroupsRead(tail);
    GroupsChars(head);
    GroupsChars(tail);
    var a := h + "::" + t;
    DoubleColonIs(a, |h|);
    assert a[..|h|] == h && a[|h| + 2..] == t;
  }

  lemma GroupsChars(gs: seq<nat>)
    requires AreGroups(gs)
    ensures var j := GroupsText(gs);
            && (gs == [] <==> j == "")
            && AllIn(j, HexColon)
            && (gs != [] ==> j[0] != ':' && j[|j| - 1] != ':')
            && (forall k | 0 <= k < |j| - 1 :: j[k] != ':' || j[k + 1] != ':')
            && (|gs| > 1 ==> exists q | 0 <= q < |j| :: j[q] == ':')
  {
    GroupsRead(gs);
    if gs == [] {
      JoinNone(':');
    } else {
      JoinedGroups(Texts(HexGroup, gs));
    }
  }

  /** Text of an address that does not start with a colon: hexadecimal and colons, with a
      colon somewhere, and it reads back as the address's eight groups. */
  lemma Ipv6Shape(address: nat) returns (q: nat)
    requires var a := Ipv6AddressText(address); a != "" && a[0] != ':'
    ensures var a := Ipv6AddressText(address);
            && q < |a| && a[q] == ':' && AllIn(a, HexColon)
            && Ipv6Groups(a) == Ok("", Fixed(address, 65536, 8))
  {
    hide Fixed, DoubleColon, LongestZeroRun, ReadGroups, Ipv4AddressText, GroupsText;
    var gs := Fixed(address, 65536, 8);
    var a := Ipv6AddressText(address);
    assert gs[..6] != [0, 0, 0, 0, 0, 65535];
    var (start, n) := LongestZeroRun(gs, 0);
    if n > 1 {
      var head, tail := gs[..start], gs[start + n..];
      GroupsChars(head);
      assert head != [];
      CompressedReads(head, n, tail);
      assert head + Zeros(n) + tail == gs;
      q := |GroupsText(head)|;
    } else {
      GroupsRead(gs);
      GroupsChars(gs);
      DoubleColonIs(a, |a|);
      q :| 0 <= q < |a| && a[q] == ':';
    }
  }

  /** How much of the text the IPv6 alternative recognizes. */
  lemma Ipv6Spans(a: string, q: nat, t: string)
    requires q < |a| && a[q] == ':' && AllIn(a, HexColon) && In(a[0], Hex)
    requires t == "" || t[0] in "/,) \t"
    ensures var h := Span(a + t, Hex);
            0 < h < |a| && Span((a + t)[h..], HexColon) == |a| - h
  {
    hide Span, In;
    var h := Span(a, Hex);
    HexSpan(a, q, t);
    assert (a + t)[h..] == a[h..] + t;
    HexColonsSpan(a[h..], t);
  }

  lemma HexSpan(a: string, q: nat, t: string)
    requires q < |a| && a[q] == ':' && In(a[0], Hex)
    ensures var h := Span(a, Hex); 0 < h < |a| && Span(a + t, Hex) == h
  {
    var h := Span(a, Hex);
    SpanStops(a, q, Hex);
    assert (a + t)[h] == a[h];
    SpanIs(a + t, h, Hex);
  }

  lemma HexColonsSpan(b: string, t: string)
    requires AllIn(b, HexColon) && (t == "" || t[0] in "/,) \t")
    ensures Span(b + t, HexColon) == |b|
  {
    SpanIs(b + t, |b|, HexColon);
  }

  lemma Ipv6Parse(c: Cidr6, r: string)
    requires Printable(IPv6(c)) && Follows(r)
    ensures ParseIpv6(Ipv6Text(c) + r) == Ok(r, IPv6(c))
  {
    hide Digits, Fixed, Unfixed, Span, ReadMask, MakeCidr, Ipv6Groups, Ipv6AddressText, MaskText, ValidCidr, Pow;
    var a, m := Ipv6AddressText(c.address), MaskText(c, 128);
    Ipv6NotEmpty(c);
    var q := Ipv6Shape(c.address);
    var i := a + (m + r);
    assert Ipv6Text(c) + r == i;
    MaskStarts(c, 128, r);
    Ipv6Spans(a, q, m + r);
    assert i[..|a|] == a && i[|a|..] == m + r;
    MaskReads(c, 128, r);
    Ipv6Number(c);
  }

  lemma SixteenBits()
    ensures Pow(2, 16) == 65536 == Pow(16, 4)
  {
    PowOfPow(4, 4);
    assert Pow(2, 4) == 16;
  }

  lemma Ipv6Number(c: Cidr6)
    ensures Unfixed(Fixed(c.address, 65536, 8), 65536) == c.address
  {
    hide Fixed, Unfixed;
    SixteenBits();
    hide Pow;
    PowOfPow(16, 8);
    UnfixedOfFixed(c.address, 65536, 8);
  }

  lemma Ipv6NotEmpty(c: Cidr6)
    ensures Ipv6AddressText(c.address) != ""
  {
    hide Fixed, Ipv4AddressText, LongestZeroRun;
    var gs := Fixed(c.address, 65536, 8);
    GroupsChars(gs);
  }

  /** Hexadecimal text that starts with a decimal digit and meets a colon before any other
      character is refused by every alternative before the IPv6 one. */
  lemma OnlyIpv6(i: string, q: nat)
    requires q < |i| && i[q] == ':' && IsDigit(i[0])
    requires forall k | 0 <= k <= q :: In(i[k], HexColon)
    ensures EmailLength(i) == 0 && NameLength(i) == 0 && DomainLength(i) == 0
    ensures ParseIpv4(i).Err?
  {
    assert !In(':', Local) && !In(':', Digit) && !In(':', LabelTail) && !In(i[0], Alpha);
    hide Span, LabelLength, In, IsDigit;
    NoDotInGroups(i, q);
    SpanStops(i, q, Local);
    SpanStops(i, 0, Alpha);
    LabelLengthStops(i, q);
    hide ParseIpv4;
    NoDotNoIpv4(i, q);
  }

  lemma NoDotNoIpv4(i: string, q: nat)
    requires q < |i| && i[q] == ':' && forall k | 0 <= k <= q :: i[k] != '.'
    ensures ParseIpv4(i).Err?
  {
    assert !In(':', Digit);
    hide Span, In;
    SpanStops(i, q, Digit);
  }

  lemma NoDotInGroups(i: string, q: nat)
    requires q < |i| && forall k | 0 <= k <= q :: In(i[k], HexColon)
    ensures forall k | 0 <= k <= q :: i[k] != '.' && i[k] != '@'
  {
    assert forall c | In(c, HexColon) :: c != '.' && c != '@';
  }

  lemma Ipv6Reads(c: Cidr6, r: string)
    requires Printable(IPv6(c)) && Follows(r)
    ensures ParseEntity(Ipv6Text(c) + r) == Ok(r, IPv6(c))
  {
    hide Ipv6AddressText, MaskText, EmailLength, NameLength, DomainLength, ParseIpv4, ParseIpv6;
    var a := Ipv6AddressText(c.address);
    Ipv6NotEmpty(c);
    var q := Ipv6Shape(c.address);
    var i := Ipv6Text(c) + r;
    assert forall k | 0 <= k <= q :: i[k] == a[k];
    OnlyIpv6(i, q);
    Ipv6Parse(c, r);
  }

  /* ---- lists and templates ---- */

  /** Every text with a separator before it. */
  function Prefixed(texts: seq<string>, sep: char): string {
    if texts == [] then "" else [sep] + texts[0] + Prefixed(texts[1..], sep)
  }

  lemma {:induction false} JoinPrefixed(texts: seq<string>, sep: char)
    requires texts != []
    ensures Join(texts, sep) == texts[0] + Prefixed(texts[1..], sep)
  {
    if |texts| > 1 {
      JoinPrefixed(texts[1..], sep);
      assert Prefixed(texts[1..], sep) == [sep] + texts[1] + Prefixed(texts[1..][1..], sep);
    }
  }

  /** What an element parser meets after an element. */
  predicate After(rest: string, sep: char, close: string) {
    rest == "" || rest[0] == sep || rest[0] in close
  }

  lemma {:induction false} MoreReads<T>(
      sep: char, close: string, p: string -> Parse<T>, texts: seq<string>, xs: seq<T>, r: string)
    requires |texts| == |xs|
    requires r == "" || r[0] in close
    requires sep !in close
    requires forall k, rest | 0 <= k < |xs| && After(rest, sep, close) :: p(texts[k] + rest) == Ok(rest, xs[k])
    ensures More(One(sep), p, Prefixed(texts, sep) + r) == Ok(r, xs)
  {
    if xs != [] {
      var rest := Prefixed(texts[1..], sep) + r;
      var i := Prefixed(texts, sep) + r;
      assert i == [sep] + (texts[0] + rest);
      assert After(rest, sep, close);
      assert p(texts[0] + rest) == Ok(rest, xs[0]);
      MoreReads(sep, close, p, texts[1..], xs[1..], r);
      hide More, Prefixed;
      OneMore(sep, p, i, texts[0] + rest, rest, xs, r);
    }
  }

  lemma OneMore<T>(sep: char, p: string -> Parse<T>, i: string, j: string, rest: string, xs: seq<T>, r: string)
    requires i == [sep] + j && xs != [] && |rest| <= |j|
    requires p(j) == Ok(rest, xs[0]) && More(One(sep), p, rest) == Ok(r, xs[1..])
    ensures More(One(sep), p, i) == Ok(r, xs)
  {
    assert i[1..] == j;
    assert xs == [xs[0]] + xs[1..];
  }

  lemma ListReads<T>(
      sep: char, close: string, p: string -> Parse<T>, texts: seq<string>, xs: seq<T>, r: string)
    requires |texts| == |xs| > 0
    requires r == "" || r[0] in close
    requires sep !in close
    requires forall k, rest | 0 <= k < |xs| && After(rest, sep, close) :: p(texts[k] + rest) == Ok(rest, xs[k])
    ensures SeparatedList(One(sep), p, Join(texts, sep) + r) == Ok(r, xs)
  {
    JoinPrefixed(texts, sep);
    var rest := Prefixed(texts[1..], sep) + r;
    assert Join(texts, sep) + r == texts[0] + rest;
    assert After(rest, sep, close);
    assert p(texts[0] + rest) == Ok(rest, xs[0]);
    MoreReads(sep, close, p, texts[1..], xs[1..], r);
    assert xs == [xs[0]] + xs[1..];
  }

  lemma TypeReads(t: EntityType, r: string)
    ensures ParseType(TypeText(t) + r) == Ok(r, t)
  {
    var i := TypeText(t) + r;
    assert i[|TypeText(t)|..] == r;
    assert i[0] == TypeText(t)[0];
    assert |TypeText(t)| > 3 ==> i[3] == TypeText(t)[3];
  }

  lemma AlternativesRead(ts: seq<EntityType>, r: string)
    requires ts != [] && After(r, ',', ")")
    ensures ParseAlternatives(AlternativesText(ts) + r) == Ok(r, ts)
  {
    hide TypeText, ParseType;
    var texts := Texts(TypeText, ts);
    forall k, rest | 0 <= k < |ts| && After(rest, '|', ",)") ensures ParseType(texts[k] + rest) == Ok(rest, ts[k]) {
      TypeReads(ts[k], rest);
    }
    ListReads('|', ",)", ParseType, texts, ts, r);
  }

  lemma TypesRead(types: seq<seq<EntityType>>, r: string)
    requires types != [] && (forall ts | ts in types :: ts != [])
    requires r != "" && r[0] == ')'
    ensures ParseTypes(Join(Texts(AlternativesText, types), ',') + r) == Ok(r, types)
  {
    hide AlternativesText, ParseAlternatives;
    var texts := Texts(AlternativesText, types);
    forall k, rest | 0 <= k < |types| && After(rest, ',', ")")
      ensures ParseAlternatives(texts[k] + rest) == Ok(rest, types[k])
    {
      assert types[k] in types;
      AlternativesRead(types[k], rest);
    }
    ListReads(',', ")", ParseAlternatives, texts, types, r);
  }

  lemma TemplateParse(t: Template, r: string)
    requires Printable(TemplateEntity(t))
    ensures ParseTemplate(TemplateText(t) + r) == Ok(r, TemplateEntity(t))
  {
    hide ParseTypes, Texts, Join, NameLength;
    var types := Join(Texts(AlternativesText, t.entityTypes), ',');
    var i := TemplateText(t) + r;
    var n := |t.name|;
    assert i == t.name + ("(" + types + ")" + r);
    NameLengthIs(t.name, "(" + types + ")" + r);
    assert i[..n] == t.name && i[n..][0] == '(' && i[n + 1..] == types + (")" + r);
    TypesRead(t.entityTypes, ")" + r);
    assert (")" + r)[1..] == r;
  }

  lemma TemplateReads(t: Template, r: string)
    requires Printable(TemplateEntity(t))
    ensures ParseEntity(TemplateText(t) + r) == Ok(r, TemplateEntity(t))
  {
    hide ParseTemplate, EmailLength, ParseAsn, ParseSigner, ParseDomain, ParseIpv4, ParseIpv6, Texts, Join;
    var types := Join(Texts(AlternativesText, t.entityTypes), ',');
    var i := TemplateText(t) + r;
    assert i == t.name + ("(" + types + ")" + r);
    NotEmail(t.name, "(" + types + ")" + r);
    assert i[0] == t.name[0];
    TemplateParse(t, r);
  }

  /** Printable text reads back, and nothing of what follows is taken with it. */
  lemma PrintableReads(e: Entity, r: string)
    requires Printable(e) && Follows(r)
    ensures ParseEntity(EntityText(e) + r) == Ok(r, e)
  {
    hide ParseEntity, IsDomainText, IsEmailText, IsBase64, StartsLikeAs, Ipv6Text, Ipv4Text, TemplateText;
    match e
    case Domain(s) => DomainReads(s, r);
    case EMail(s) => EmailReads(s, r);
    case AS(n) => AsReads(n, r);
    case IPv4(c) => Ipv4Reads(c, r);
    case IPv6(c) => Ipv6Reads(c, r);
    case Signer(k) => SignerReads(k.text, r);
    case Url(_) =>
    case HashValue(s) => HashReads(s, r);
    case TemplateEntity(t) => TemplateReads(t, r);
  }

  /* ---- what the parser can produce ---- */

  lemma EmailRead(i: string)
    requires EmailLength(i) > 0
    ensures IsEmailText(i[..EmailLength(i)])
  {
    hide IsDomainText, DomainLength;
    var n := Span(i, Local);
    var s := i[..EmailLength(i)];
    SpanIs(s, n, Local);
    DomainRead(i[n + 1..]);
    assert s[n + 1..] == i[n + 1..][..DomainLength(i[n + 1..])];
  }

  lemma {:induction false} DomainEndsInLetter(s: string)
    requires IsDomainText(s)
    ensures s != "" && IsAlpha(s[|s| - 1])
  {
    var n := LabelLength(s);
    if n < |s| {
      DomainEndsInLetter(s[n + 1..]);
    }
  }

  /** A domain that starts like an AS number never gets past the AS alternative. */
  lemma AsnTakes(i: string, n: nat)
    requires n <= |i| && IsDomainText(i[..n]) && StartsLikeAs(i[..n])
    ensures ParseAsn(i).Ok?
  {
    hide IsDomainText;
    var s := i[..n];
    DomainEndsInLetter(s);
    var k := Span(s[2..], Digit);
    SpanStops(s[2..], n - 3, Digit);
    assert 2 + k < n && s[2..][k] == s[2 + k] == i[2..][k];
    SpanIs(i[2..], k, Digit);
    hide Span, Value;
    SameSlice(i, n, k);
  }

  lemma SameSlice(i: string, n: nat, k: nat)
    requires 2 + k <= n <= |i|
    ensures i[2..2 + k] == i[..n][2..2 + k]
  {
  }

  lemma {:induction false} MoreAlternatives(i: string)
    requires More(One(','), ParseAlternatives, i).Ok?
    ensures forall ts | ts in More(One(','), ParseAlternatives, i).value :: ts != []
    decreases |i|
  {
    if i != "" && i[0] == ',' && ParseAlternatives(i[1..]).Ok? && |ParseAlternatives(i[1..]).rest| < |i| {
      MoreAlternatives(ParseAlternatives(i[1..]).rest);
    }
  }

  lemma TemplateRead(i: string)
    requires ParseTemplate(i).Ok?
    ensures ParseTemplate(i).value.TemplateEntity? && Printable(ParseTemplate(i).value)
  {
    NameRead(i);
    MoreAlternatives(ParseAlternatives(i[NameLength(i) + 1..]).rest);
  }

  /** A label that a dot ends is no IPv6 text. */
  lemma LabelIsNotIpv6(i: string, n: nat)
    requires n < |i| && i[n] == '.'
    requires forall k | 0 <= k < n :: In(i[k], LabelTail)
    ensures Span(i[Span(i, Hex)..], HexColon) == 0
  {
    HexEndsInLabel(i, n);
    hide Span, In;
    SpanIsEmpty(i, Span(i, Hex), HexColon);
  }

  lemma HexEndsInLabel(i: string, n: nat)
    requires n < |i| && i[n] == '.'
    requires forall k | 0 <= k < n :: In(i[k], LabelTail)
    ensures Span(i, Hex) <= n && !In(i[Span(i, Hex)], HexColon)
  {
    assert !In('.', Hex);
    hide Span, In;
    SpanStops(i, n, Hex);
    NotHexColon(i[Span(i, Hex)]);
  }

  lemma SpanIsEmpty(i: string, h: nat, cls: Class)
    requires h < |i| && !In(i[h], cls)
    ensures Span(i[h..], cls) == 0
  {
  }

  lemma NotHexColon(c: char)
    requires !In(c, Hex) && (In(c, LabelTail) || c == '.')
    ensures !In(c, HexColon)
  {
  }

  /** Text that starts with a letter is a domain, or no IPv6 text either. */
  lemma Ipv6Start(i: string)
    requires ParseIpv6(i).Ok? && DomainLength(i) == 0
    ensures i != "" && IsDigit(i[0]) && ParseIpv6(i).value.IPv6?
  {
    hide Ipv6Groups, ReadMask, MakeCidr, LabelLength;
    var n := LabelLength(i);
    LabelChars(i);
    if n < |i| && i[n] == '.' {
      LabelIsNotIpv6(i, n);
    } else {
      SpanStops(i, 0, Alpha);
    }
  }

  lemma LabelChars(i: string)
    ensures forall k | 0 <= k < LabelLength(i) :: In(i[k], LabelTail)
  {
    var a := Span(i, Alnum);
    forall k | 0 <= k < LabelLength(i) ensures In(i[k], LabelTail) {
      if k >= a { assert i[a..][k - a] == i[k]; }
    }
  }

  /** Everything the grammar accepts it can print and accept again, except IPv6 networks
      whose canonical text is not of the shape their input had. */
  lemma ParsedIsPrintable(i: string)
    requires ParseEntity(i).Ok?
    ensures var e := ParseEntity(i).value;
            if e.IPv6? then i != "" && IsDigit(i[0]) else Printable(e)
  {
    hide IsDomainText, IsEmailText, IsBase64, StartsLikeAs, Base64Length, DomainLength, EmailLength,
      ParseTemplate, ParseIpv4, ParseIpv6;
    if EmailLength(i) > 0 {
      EmailRead(i);
    } else if ParseHashValue(i).Ok? {
      if EmailLength(i[1..]) == 0 { Base64Read(i[1..]); }
    } else if ParseTemplate(i).Ok? {
      TemplateRead(i);
    } else if ParseAsn(i).Ok? {
    } else if ParseSigner(i).Ok? {
      Base64Read(i[10..]);
    } else if DomainLength(i) > 0 {
      DomainRead(i);
      if StartsLikeAs(i[..DomainLength(i)]) { AsnTakes(i, DomainLength(i)); }
    } else if ParseIpv4(i).Ok? {
      assert ParseIpv4(i).value.IPv4? by { Ipv4Kind(i); }
    } else {
      Ipv6Start(i);
    }
  }

  lemma Ipv4Kind(i: string)
    ensures ParseIpv4(i).Ok? ==> ParseIpv4(i).value.IPv4?
  {
  }

  /** Inside a statement, an entity's text reads back as that entity exactly when the
      entity is printable. */
  lemma EntityReads(e: Entity, r: string)
    requires Follows(r)
    ensures Printable(e) ==> ParseEntity(EntityText(e) + r) == Ok(r, e)
    ensures !Printable(e) ==> !(ParseEntity(EntityText(e) + r).Ok? && ParseEntity(EntityText(e) + r).value == e)
  {
    hide ParseEntity, IsDomainText, IsEmailText, IsBase64, StartsLikeAs, Ipv6AddressText, Ipv4Text, TemplateText;
    var i := EntityText(e) + r;
    if Printable(e) {
      PrintableReads(e, r);
    } else if ParseEntity(i).Ok? {
      ParsedIsPrintable(i);
      if e.IPv6? {
        Ipv6NotEmpty(e.cidr6);
        assert i[0] == EntityText(e)[0];
      }
    }
  }

  /** An entity survives printing and parsing exactly when it is printable. */
  lemma EntityRoundTrip(e: Entity)
    ensures EntityFromText(EntityText(e)) == Ok("", e) <==> Printable(e)
  {
    hide ParseEntity, Printable, EntityText;
    EntityReads(e, "");
    assert EntityText(e) + "" == EntityText(e);
  }

  lemma StartsWithAs1(r: string)
    requires r != "" && !IsDigit(r[0])
    ensures StartsLikeAs("AS1" + r)
  {
    var i := "AS1" + r;
    SpanIs(i[2..], 1, Digit);
    assert i[2..3] == "1";
    assert "1"[..0] == "";
  }

  /** A domain whose first label is `AS` and a number is taken for an AS. */
  lemma AsDomainIsLost()
    ensures IsDomainText("AS1.com")
    ensures EntityFromText(EntityText(Domain("AS1.com"))) != Ok("", Domain("AS1.com"))
  {
    hide ParseEntity, EntityFromText, StartsLikeAs, IsDomainText, Span;
    var i := "AS1.com";
    SpanIs(i, 3, Alnum);
    SpanIs(i[3..], 0, LabelTail);
    assert i[4..] == "com";
    LettersRead("com");
    LabelThenDomain(i, 3);
    assert i == "AS1" + ".com";
    StartsWithAs1(".com");
    EntityRoundTrip(Domain(i));
  }

  lemma TemplateRoundTrip(t: Template)
    ensures TemplateFromText(TemplateText(t)) == Ok("", TemplateEntity(t)) <==> Printable(TemplateEntity(t))
  {
    hide ParseTemplate, TemplateText, IsName;
    var i := TemplateText(t);
    if ParseTemplate(i).Ok? {
      TemplateRead(i);
    }
    if Printable(TemplateEntity(t)) {
      TemplateParse(t, "");
      assert i + "" == i;
    }
  }

  /** Through `entity`, a raw address after `#` is never hashed: the e-mail alternative
      has taken the text, `#` included. A hash that is read is the text that was written. */
  lemma HashIsLiteral(i: string)
    requires ParseEntity(i).Ok? && ParseEntity(i).value.HashValue?
    ensures i == "#" + ParseEntity(i).value.hash + ParseEntity(i).rest
  {
    hide EmailLength, ParseHashValue, ParseTemplate, ParseAsn, ParseSigner, ParseDomain, ParseIpv4, ParseIpv6;
    OtherKinds(i);
    HashIsLeft(i);
    if ParseHashValue(i).Ok? { HashRead(i); }
  }

  /** No alternative but one yields a hash. */
  lemma OtherKinds(i: string)
    ensures ParseTemplate(i).Ok? ==> !ParseTemplate(i).value.HashValue?
    ensures ParseAsn(i).Ok? ==> !ParseAsn(i).value.HashValue?
    ensures ParseSigner(i).Ok? ==> !ParseSigner(i).value.HashValue?
    ensures ParseDomain(i).Ok? ==> !ParseDomain(i).value.HashValue?
    ensures ParseIpv4(i).Ok? ==> !ParseIpv4(i).value.HashValue?
    ensures ParseIpv6(i).Ok? ==> !ParseIpv6(i).value.HashValue?
  {
    hide DottedDigits, Ipv6Groups, ReadMask, MakeCidr, Base64Length, Span, Value, DomainLength, NameLength, ParseTypes;
  }

  lemma HashIsLeft(i: string)
    requires ParseEntity(i).Ok? && ParseEntity(i).value.HashValue?
    ensures EmailLength(i) == 0
  {
    hide EmailLength, ParseHashValue, ParseTemplate, ParseAsn, ParseSigner, ParseDomain, ParseIpv4, ParseIpv6;
  }

  lemma HashRead(i: string)
    requires EmailLength(i) == 0 && ParseHashValue(i).Ok?
    ensures i == "#" + ParseHashValue(i).value.hash + ParseHashValue(i).rest
  {
    hide EmailLength, Base64Length;
    NoRawAddress(i);
    var j := i[1..];
    var m := Base64Length(j);
    assert i == "#" + j[..m] + j[m..];
  }

  /** Through `entity`, a raw address after `#` is an e-mail address that starts with `#`. */
  lemma RawAddressIsEmail(s: string)
    requires IsEmailText(s)
    ensures EntityFromText("#" + s) == Ok("", EMail("#" + s))
  {
    hide IsDomainText, ParseEntity;
    var n := Span(s, Local);
    var t := "#" + s;
    assert In('#', Local);
    SpanIs(t, n + 1, Local);
    assert t[n + 2..] == s[n + 1..];
    assert IsEmailText(t);
    EntityRoundTrip(EMail(t));
  }

  lemma NoRawAddress(i: string)
    requires Starts(i, "#") && EmailLength(i) == 0
    ensures EmailLength(i[1..]) == 0
  {
    hide DomainLength;
    var j := i[1..];
    var n := Span(j, Local);
    assert In('#', Local);
    SpanIs(i, n + 1, Local);
    if n < |j| { assert i[n + 2..] == j[n + 1..]; }
  }

  /* ---- statements ---- */

  predicate AllPrintable(es: seq<Entity>) {
    forall e | e in es :: Printable(e)
  }

  predicate WellFormed(s: Statement) {
    IsName(s.name) && s.entities != [] && AllPrintable(s.entities)
  }

  lemma {:induction false} MoreEntities(es: seq<Entity>, r: string)
    requires r != "" && r[0] == ')'
    ensures var m := More(One(','), ParseEntity, Prefixed(Texts(EntityText, es), ',') + r);
            if AllPrintable(es) then m == Ok(r, es) else !(m.Ok? && m.value == es)
  {
    hide EntityText, Printable, ParseEntity;
    if es != [] {
      var texts := Texts(EntityText, es);
      var rest := Prefixed(texts[1..], ',') + r;
      var i := Prefixed(texts, ',') + r;
      assert i == [','] + (texts[0] + rest);
      assert i[1..] == texts[0] + rest;
      EntityReads(es[0], rest);
      MoreEntities(es[1..], r);
      assert es == [es[0]] + es[1..];
      assert AllPrintable(es) <==> Printable(es[0]) && AllPrintable(es[1..]);
    }
  }

  lemma EntitiesRead(es: seq<Entity>, r: string)
    requires r != "" && r[0] == ')'
    ensures var l := SeparatedList(One(','), ParseEntity, Join(Texts(EntityText, es), ',') + r);
            if es != [] && AllPrintable(es) then l == Ok(r, es) else !(l.Ok? && l.value == es)
  {
    hide EntityText, Printable, ParseEntity, More;
    if es != [] {
      var texts := Texts(EntityText, es);
      JoinPrefixed(texts, ',');
      var rest := Prefixed(texts[1..], ',') + r;
      assert Join(texts, ',') + r == texts[0] + rest;
      EntityReads(es[0], rest);
      MoreEntities(es[1..], r);
      assert es == [es[0]] + es[1..];
      assert AllPrintable(es) <==> Printable(es[0]) && AllPrintable(es[1..]);
    }
  }

  lemma StandardReads(s: Statement)
    requires IsName(s.name)
    ensures var p := ParseStandard(StatementText(s));
            if WellFormed(s) then p == Ok("", s) else !(p.Ok? && p.value == s)
    ensures ParseTyped(StatementText(s)).Err?
  {
    hide NameLength, SeparatedList, EntityText, Printable, IsName;
    var body := Join(Texts(EntityText, s.entities), ',');
    var i := StatementText(s);
    var n := |s.name|;
    assert i == s.name + ("(" + body + ")");
    NameLengthIs(s.name, "(" + body + ")");
    NameNotEmpty(s.name);
    assert i[..n] == s.name && i[n..][0] == '(' && i[n + 1..] == body + ")";
    EntitiesRead(s.entities, ")");
  }

  lemma NameNotEmpty(s: string)
    requires IsName(s)
    ensures |s| > 0
  {
  }

  lemma StatementNameIsName(i: string)
    requires ParseStatement(i).Ok?
    ensures IsName(ParseStatement(i).value.name)
  {
    hide NameLength, SeparatedList, IsName, ParseEntity;
    if NameLength(i) > 0 { NameRead(i); }
  }

  /** A statement survives printing and parsing exactly when its name is a name, it has
      entities, and each of them is printable. */
  lemma StatementRoundTrip(s: Statement)
    ensures StatementFromText(StatementText(s)) == Ok("", s) <==> WellFormed(s)
  {
    hide ParseStandard, ParseTyped, StatementText, Printable, IsName;
    var i := StatementText(s);
    if IsName(s.name) {
      StandardReads(s);
    } else if ParseStatement(i).Ok? {
      StatementNameIsName(i);
    }
  }

  /* ---- the typed form ---- */

  predicate IsGap(g: string) {
    g != "" && AllIn(g, Blank)
  }

  /** The texts, each with its blanks before it. */
  function Spaced(gaps: seq<string>, texts: seq<string>): string
    requires |gaps| == |texts|
  {
    if texts == [] then "" else gaps[0] + texts[0] + Spaced(gaps[1..], texts[1..])
  }

  lemma PrintableStarts(e: Entity)
    requires Printable(e)
    ensures EntityText(e) != "" && !In(EntityText(e)[0], Blank)
  {
    hide Printable, EntityText, ParseEntity;
    var s := EntityText(e);
    assert s + "" == s;
    PrintableReads(e, "");
    NothingStartsBlank(s);
  }

  /** No alternative takes an empty text, or one that starts with a blank. */
  lemma NothingStartsBlank(i: string)
    ensures i == "" || In(i[0], Blank) ==> !ParseEntity(i).Ok?
  {
    hide EmailLength, DomainLength, NameLength, Span, Base64Length, Value, ReadMask, MakeCidr, Ipv6Groups, ParseTypes;
    if i == "" || In(i[0], Blank) {
      NothingIsSpanned(i);
      NoMarkIsSeen(i);
      hide Starts, In;
    }
  }

  lemma NoMarkIsSeen(i: string)
    requires i == "" || In(i[0], Blank)
    ensures !Starts(i, "#") && !Starts(i, "AS") && !Starts(i, SECP)
  {
    assert i != "" ==> SECP[0] == 's';
  }

  lemma NothingIsSpanned(i: string)
    requires i == "" || In(i[0], Blank)
    ensures EmailLength(i) == 0 && DomainLength(i) == 0 && NameLength(i) == 0
    ensures Span(i, Digit) == 0 && Span(i, Hex) == 0
  {
    SpanStops(i, 0, Local);
    SpanStops(i, 0, Alpha);
    SpanStops(i, 0, Alnum);
    SpanStops(i, 0, Digit);
    SpanStops(i, 0, Hex);
    hide Span;
  }

  lemma SpacedFollows(gaps: seq<string>, texts: seq<string>)
    requires |gaps| == |texts| && forall g | g in gaps :: IsGap(g)
    ensures Follows(Spaced(gaps, texts))
  {
    if texts != [] { assert IsGap(gaps[0]); }
  }

  lemma {:induction false} MoreSpaced(gaps: seq<string>, es: seq<Entity>)
    requires |gaps| == |es| && (forall g | g in gaps :: IsGap(g)) && AllPrintable(es)
    ensures More(Blanks, ParseEntity, Spaced(gaps, Texts(EntityText, es))) == Ok("", es)
  {
    hide EntityText, Printable, ParseEntity, Follows;
    if es != [] {
      var texts := Texts(EntityText, es);
      var rest := Spaced(gaps[1..], texts[1..]);
      var i := Spaced(gaps, texts);
      assert i == gaps[0] + (texts[0] + rest) && IsGap(gaps[0]) && Printable(es[0]);
      PrintableStarts(es[0]);
      GapIsSpanned(gaps[0], texts[0] + rest);
      SpacedFollows(gaps[1..], texts[1..]);
      PrintableReads(es[0], rest);
      MoreSpaced(gaps[1..], es[1..]);
      assert Texts(EntityText, es[1..]) == texts[1..];
      assert es == [es[0]] + es[1..];
    }
  }

  lemma GapIsSpanned(g: string, r: string)
    requires IsGap(g) && (r == "" || !In(r[0], Blank))
    ensures Span(g + r, Blank) == |g| && (g + r)[|g|..] == r
  {
    SpanIs(g + r, |g|, Blank);
  }

  /** What is typed in, with blanks instead of parentheses and commas, as many as one likes,
      reads as the statement. */
  lemma TypedFormReads(s: Statement, gaps: seq<string>)
    requires WellFormed(s) && |gaps| == |s.entities| && forall g | g in gaps :: IsGap(g)
    ensures StatementFromText(s.name + Spaced(gaps, Texts(EntityText, s.entities))) == Ok("", s)
  {
    hide NameLength, SeparatedList, EntityText, Printable, IsName, IsGap, ParseEntity, Spaced, Span, Starts;
    var texts := Texts(EntityText, s.entities);
    var gap, body, n := gaps[0], texts[0] + Spaced(gaps[1..], texts[1..]), |s.name|;
    var i := s.name + Spaced(gaps, texts);
    SpacedStep(gaps, texts);
    assert i == s.name + (gap + body);
    NameBeforeGap(s.name, gap, body);
    SpacedListReads(gaps, s.entities);
    GapSplits(s.name, gap, body);
    hide *;
    TypedParse(i, s.name, |gap|, body, s.entities);
    assert s == Statement(s.name, s.entities);
  }

  lemma TypedParse(i: string, name: string, blanks: nat, body: string, es: seq<Entity>)
    requires NameLength(i) == |name| > 0 && i[..|name|] == name && !Starts(i[|name|..], "(")
    requires Span(i[|name|..], Blank) == blanks > 0 && |name| + blanks <= |i| && i[|name| + blanks..] == body
    requires SeparatedList(Blanks, ParseEntity, body) == Ok("", es)
    ensures StatementFromText(i) == Ok("", Statement(name, es))
  {
    hide NameLength, SeparatedList, ParseEntity, Span, Starts;
  }

  lemma GapSplits(name: string, gap: string, body: string)
    requires IsGap(gap) && (body == "" || !In(body[0], Blank))
    ensures var i := name + (gap + body);
            i[..|name|] == name && Span(i[|name|..], Blank) == |gap| > 0 && i[|name| + |gap|..] == body
  {
    hide Span;
    var i := name + (gap + body);
    GapIsSpanned(gap, body);
    assert i[|name|..] == gap + body;
  }

  lemma SpacedListReads(gaps: seq<string>, es: seq<Entity>)
    requires es != [] && |gaps| == |es| && (forall g | g in gaps :: IsGap(g)) && AllPrintable(es)
    ensures var texts := Texts(EntityText, es);
            var body := texts[0] + Spaced(gaps[1..], texts[1..]);
            body != "" && !In(body[0], Blank) && SeparatedList(Blanks, ParseEntity, body) == Ok("", es)
  {
    hide More, EntityText, Printable, IsGap, ParseEntity, Follows, Spaced;
    var texts := Texts(EntityText, es);
    var rest := Spaced(gaps[1..], texts[1..]);
    assert Printable(es[0]);
    PrintableStarts(es[0]);
    SpacedFollows(gaps[1..], texts[1..]);
    PrintableReads(es[0], rest);
    MoreSpaced(gaps[1..], es[1..]);
    assert Texts(EntityText, es[1..]) == texts[1..];
    assert es == [es[0]] + es[1..];
  }

  lemma SpacedStep(gaps: seq<string>, texts: seq<string>)
    requires |gaps| == |texts| > 0
    ensures Spaced(gaps, texts) == gaps[0] + (texts[0] + Spaced(gaps[1..], texts[1..]))
  {
  }

  lemma NameBeforeGap(name: string, gap: string, r: string)
    requires IsName(name) && IsGap(gap)
    ensures var i := name + (gap + r); NameLength(i) == |name| > 0 && !Starts(i[|name|..], "(")
  {
    hide NameLength;
    NameLengthIs(name, gap + r);
    var i := name + (gap + r);
    assert i[|name|..] == gap + r;
  }

  /* ---- parsed statements ---- */

  /** Entities the parser can produce: the printable ones, and any IPv6 network. */
  predicate Parseable(e: Entity) {
    Printable(e) || e.IPv6?
  }

  lemma {:induction false} MoreParsed(sep: Separator, i: string)
    requires More(sep, ParseEntity, i).Ok?
    ensures forall e | e in More(sep, ParseEntity, i).value :: Parseable(e)
    decreases |i|
  {
    hide ParseEntity, Printable;
    var j := i[SeparatorLength(sep, i)..];
    if SeparatorLength(sep, i) > 0 && ParseEntity(j).Ok? && |ParseEntity(j).rest| < |i| {
      ParsedIsPrintable(j);
      MoreParsed(sep, ParseEntity(j).rest);
    }
  }

  lemma ListParsed(sep: Separator, i: string)
    requires SeparatedList(sep, ParseEntity, i).Ok?
    ensures forall e | e in SeparatedList(sep, ParseEntity, i).value :: Parseable(e)
  {
    hide ParseEntity, Printable;
    ParsedIsPrintable(i);
    MoreParsed(sep, ParseEntity(i).rest);
  }

  lemma StatementParsed(i: string)
    requires ParseStatement(i).Ok?
    ensures var s := ParseStatement(i).value; IsName(s.name) && forall e | e in s.entities :: Parseable(e)
  {
    hide ParseEntity, Printable, Parseable, SeparatedList, IsName, NameLength;
    StatementNameIsName(i);
    var n := NameLength(i);
    if n > 0 {
      if ParseStandard(i).Ok? {
        ListParsed(One(','), i[n + 1..]);
      } else {
        ListParsed(Blanks, i[n + Span(i[n..], Blank)..]);
      }
    }
  }

  lemma Ipv6NetworkIsPlain(c: Cidr6)
    ensures Plain(Ipv6Text(c))
  {
    hide Ipv6AddressText, Decimal;
    Ipv6IsPlain(c.address);
    DigitsArePlain(c.length);
  }

  lemma KeyIsPlain(k: PublicKey)
    requires IsBase64(k.text)
    ensures Plain(KeyText(k))
  {
    hide IsBase64;
    Base64Chars(k.text);
  }

  /** No text the parser could have produced an entity from, printed again, holds a
      newline: a statement stays on its line. Only templates hold a parenthesis. */
  lemma EntityIsPlain(e: Entity)
    requires Parseable(e)
    ensures '\n' !in EntityText(e)
    ensures !e.TemplateEntity? ==> '(' !in EntityText(e)
  {
    hide IsDomainText, IsEmailText, IsBase64, StartsLikeAs, Decimal, Ipv4Text, Ipv6AddressText, TemplateText,
      IsName, Ipv6Text, KeyText;
    match e
    case Domain(s) => DomainChars(s);
    case EMail(s) => EmailIsPlain(s);
    case AS(n) => DigitsArePlain(n);
    case IPv4(c) => Ipv4Chars(c);
    case IPv6(c) => Ipv6NetworkIsPlain(c);
    case Signer(k) => KeyIsPlain(k);
    case Url(_) =>
    case HashValue(s) => Base64Chars(s);
    case TemplateEntity(t) => TemplateIsPlain(t);
  }

  /** Neither a newline nor an opening parenthesis. */
  predicate Plain(s: string) {
    '\n' !in s && '(' !in s
  }

  lemma EmailIsPlain(s: string)
    requires IsEmailText(s)
    ensures Plain(s)
  {
    hide IsDomainText;
    var n := Span(s, Local);
    DomainChars(s[n + 1..]);
    forall k | 0 <= k < |s| ensures s[k] != '\n' && s[k] != '(' {
      if k > n { assert s[k] == s[n + 1..][k - n - 1]; }
    }
  }

  lemma DigitsArePlain(n: nat)
    ensures Plain(Decimal(n))
  {
    assert AllIn(Decimal(n), Digit);
  }

  lemma Ipv6IsPlain(address: nat)
    ensures Plain(Ipv6AddressText(address))
  {
    hide Fixed, GroupsText, Ipv4AddressText, LongestZeroRun, In;
    var gs := Fixed(address, 65536, 8);
    var (start, n) := LongestZeroRun(gs, 0);
    GroupsArePlain(gs);
    GroupsArePlain(gs[..start]);
    GroupsArePlain(gs[start + n..]);
    Ipv4IsPlain(gs[6] * 65536 + gs[7]);
  }

  lemma GroupsArePlain(gs: seq<nat>)
    requires AreGroups(gs)
    ensures Plain(GroupsText(gs))
  {
    hide GroupsText;
    GroupsChars(gs);
    assert !In('\n', HexColon) && !In('(', HexColon);
  }

  lemma Ipv4IsPlain(address: nat)
    ensures Plain(Ipv4AddressText(address))
  {
    hide Fixed, Join;
    var parts := Texts(Decimal, Fixed(address, 256, 4));
    forall p | p in parts ensures Plain(p) {
      var k :| 0 <= k < 4 && p == parts[k];
      DigitsArePlain(Fixed(address, 256, 4)[k]);
    }
    if '\n' in Join(parts, '.') { JoinChars(parts, '.', '\n'); }
    if '(' in Join(parts, '.') { JoinChars(parts, '.', '('); }
  }

  lemma AlternativesArePlain(ts: seq<EntityType>)
    ensures '\n' !in AlternativesText(ts)
  {
    hide Join;
    if '\n' in AlternativesText(ts) { JoinChars(Texts(TypeText, ts), '|', '\n'); }
  }

  lemma TypesArePlain(types: seq<seq<EntityType>>)
    ensures '\n' !in Join(Texts(AlternativesText, types), ',')
  {
    hide Join, AlternativesText;
    var parts := Texts(AlternativesText, types);
    if '\n' in Join(parts, ',') {
      JoinChars(parts, ',', '\n');
      var k :| 0 <= k < |parts| && '\n' in parts[k];
      AlternativesArePlain(types[k]);
    }
  }

  lemma TemplateIsPlain(t: Template)
    requires IsName(t.name)
    ensures '\n' !in TemplateText(t)
  {
    TypesArePlain(t.entityTypes);
    hide Join, Texts;
    assert forall k | 0 <= k < |t.name| :: In(t.name[k], NameTail);
  }

  lemma StatementIsPlain(s: Statement)
    requires IsName(s.name) && forall e | e in s.entities :: Parseable(e)
    ensures '\n' !in StatementText(s)
  {
    hide EntityText, Parseable, Join;
    var parts := Texts(EntityText, s.entities);
    forall k | 0 <= k < |parts| ensures '\n' !in parts[k] {
      EntityIsPlain(s.entities[k]);
    }
    if '\n' in Join(parts, ',') { JoinChars(parts, ',', '\n'); }
    assert forall k | 0 <= k < |s.name| :: In(s.name[k], NameTail);
  }
}
