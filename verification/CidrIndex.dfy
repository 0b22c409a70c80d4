/** The `cidr_min` and `cidr_max` columns: network ranges as text the database can compare. */
module CidrIndex {
  import opened Numerals
  import opened Entities
  import opened Options
  import opened Order

  /** One octet in two upper-case hexadecimal digits. */
  function OctetHex(b: nat): string
    requires b < 256
  {
    [UpperDigitChar(b / 16), UpperDigitChar(b % 16)]
  }

  function OctetsHex(bs: seq<nat>): (s: string)
    requires forall k | 0 <= k < |bs| :: bs[k] < 256
    ensures |s| == 2 * |bs|
  {
    if bs == [] then "" else OctetsHex(bs[..|bs| - 1]) + OctetHex(bs[|bs| - 1])
  }

  function First(c: Cidr): nat {
    c.address
  }

  function Last(c: Cidr, width: nat): nat
    requires ValidCidr(c, width)
  {
    c.address + Pow(2, width - c.length) - 1
  }

  predicate Contains(outer: Cidr, inner: Cidr, width: nat)
    requires ValidCidr(outer, width) && ValidCidr(inner, width)
  {
    First(outer) <= First(inner) && Last(inner, width) <= Last(outer, width)
  }

  /** The text of an address of `k` octets, after its family mark. */
  function AddressKey(family: string, address: nat, k: nat): string {
    family + OctetsHex(Fixed(address, 256, k))
  }

  /** Smallest and greatest address of a network entity, as text; nothing for other entities. */
  function CidrKeys(e: Entity): (Option<string>, Option<string>) {
    match e
    case IPv4(c) => (Some(AddressKey("4:", First(c), 4)), Some(AddressKey("4:", Last(c, 32), 4)))
    case IPv6(c) => (Some(AddressKey("6:", First(c), 16)), Some(AddressKey("6:", Last(c, 128), 16)))
    case _ => (None, None)
  }

  /** Two digits are written for each octet in turn. */
  method WriteOctets(family: string, address: nat, k: nat) returns (s: string)
    ensures s == AddressKey(family, address, k)
  {
    var octets := Fixed(address, 256, k);
    s := family;
    for j := 0 to k
      invariant s == family + OctetsHex(octets[..j])
    {
      s := s + OctetHex(octets[j]);
      assert octets[..j + 1][..j] == octets[..j];
    }
    assert octets[..k] == octets;
  }

  method CidrMinMax(e: Entity) returns (min: Option<string>, max: Option<string>)
    ensures (min, max) == CidrKeys(e)
  {
    match e {
      case IPv4(c) =>
        var first := WriteOctets("4:", First(c), 4);
        var last := WriteOctets("4:", Last(c, 32), 4);
        min, max := Some(first), Some(last);
      case IPv6(c) =>
        var first := WriteOctets("6:", First(c), 16);
        var last := WriteOctets("6:", Last(c, 128), 16);
        min, max := Some(first), Some(last);
      case _ =>
        min, max := None, None;
    }
  }

  /** `cidr_min <= ? and cidr_max >= ?`; a comparison with a null column is not true. */
  predicate IndexMatch(rowMin: Option<string>, rowMax: Option<string>, min: string, max: string) {
    rowMin.Some? && rowMax.Some? && LessEq(rowMin.value, min) && LessEq(max, rowMax.value)
  }

  lemma OneChar(c: char, d: char)
    ensures LessEq([c], [d]) <==> c <= d
  {
  }

  lemma OctetHexOrder(a: nat, b: nat)
    requires a < 256 && b < 256
    ensures LessEq(OctetHex(a), OctetHex(b)) <==> a <= b
  {
    OneChar(UpperDigitChar(a / 16), UpperDigitChar(b / 16));
    OneChar(UpperDigitChar(a % 16), UpperDigitChar(b % 16));
    LessEqAppend([UpperDigitChar(a / 16)], [UpperDigitChar(b / 16)], [UpperDigitChar(a % 16)], [UpperDigitChar(b % 16)]);
  }

  lemma HexSnoc(a: nat, k: nat)
    requires k > 0
    ensures OctetsHex(Fixed(a, 256, k)) == OctetsHex(Fixed(a / 256, 256, k - 1)) + OctetHex(a % 256)
  {
    Division(a, 256);
    var ds := Fixed(a, 256, k);
    assert ds[..k - 1] == Fixed(a / 256, 256, k - 1);
  }

  /** Fixed-width hexadecimal text is ordered like the numbers. */
  lemma {:induction false} HexOrder(a: nat, b: nat, k: nat)
    requires a < Pow(256, k) && b < Pow(256, k)
    ensures LessEq(OctetsHex(Fixed(a, 256, k)), OctetsHex(Fixed(b, 256, k))) <==> a <= b
    decreases k
  {
    if k > 0 {
      DropDigit(a, 256, k);
      DropDigit(b, 256, k);
      hide LessEq, OctetHex, OctetsHex, Fixed, Pow;
      var x, y, d, e := a / 256, b / 256, a % 256, b % 256;
      HexOrder(x, y, k - 1);
      HexOrder(y, x, k - 1);
      var s, t := OctetsHex(Fixed(x, 256, k - 1)), OctetsHex(Fixed(y, 256, k - 1));
      Reflexive(s);
      assert s == t <==> x == y;
      DigitOrder(a, b);
      HexSnoc(a, k);
      HexSnoc(b, k);
      LessEqAppend(s, t, OctetHex(d), OctetHex(e));
      OctetHexOrder(d, e);
    }
  }

  lemma DigitOrder(a: nat, b: nat)
    ensures a <= b <==> a / 256 < b / 256 || (a / 256 == b / 256 && a % 256 <= b % 256)
  {
  }

  lemma AddressKeyOrder(f: string, a: nat, g: string, b: nat, j: nat, k: nat)
    requires |f| == |g| && a < Pow(256, j) && b < Pow(256, k)
    requires f == g ==> j == k
    ensures LessEq(AddressKey(f, a, j), AddressKey(g, b, k)) <==> if f == g then a <= b else LessEq(f, g)
  {
    LessEqAppend(f, g, OctetsHex(Fixed(a, 256, j)), OctetsHex(Fixed(b, 256, k)));
    if f == g { HexOrder(a, b, k); }
  }

  lemma BlockFits(address: nat, size: nat, blocks: nat)
    requires size > 0 && address % size == 0 && address < blocks * size
    ensures address + size <= blocks * size
  {
    Division(address, size);
    var n := address / size;
    if n >= blocks { Numerals.MulMono(blocks, n, size); }
    Numerals.MulMono(n + 1, blocks, size);
  }

  lemma LastInWidth(c: Cidr, width: nat)
    requires ValidCidr(c, width)
    ensures c.address <= Last(c, width) < Pow(2, width)
  {
    PowSum(2, c.length, width - c.length);
    hide Pow;
    BlockFits(c.address, Pow(2, width - c.length), Pow(2, c.length));
  }

  /** The width of each family in octets. */
  lemma OctetWidths()
    ensures Pow(256, 4) == Pow(2, 32) && Pow(256, 16) == Pow(2, 128)
  {
    PowOfPow(8, 4);
    PowOfPow(8, 16);
    assert Pow(2, 8) == 256;
  }

  predicate Covers(outer: Entity, inner: Entity) {
    match (outer, inner)
    case (IPv4(s), IPv4(q)) => Contains(s, q, 32)
    case (IPv6(s), IPv6(q)) => Contains(s, q, 128)
    case _ => false
  }

  /** For every stored entity and every network looked up, the two text comparisons hold
      exactly when the stored entity is a network of the same family that contains it. */
  lemma IndexIsExact(stored: Entity, query: Entity)
    requires query.IPv4? || query.IPv6?
    ensures var (rowMin, rowMax) := CidrKeys(stored);
            var (min, max) := CidrKeys(query);
            IndexMatch(rowMin, rowMax, min.value, max.value) <==> Covers(stored, query)
  {
    hide AddressKey, Pow, LessEq;
    if stored.IPv4? || stored.IPv6? {
      OctetWidths();
      var (f, j, w, s) := Family(stored);
      var (g, k, v, q) := Family(query);
      LastInWidth(s, w);
      LastInWidth(q, v);
      AddressKeyOrder(f, First(s), g, First(q), j, k);
      AddressKeyOrder(g, Last(q, v), f, Last(s, w), k, j);
      FamiliesDiffer();
    }
  }

  lemma FamiliesDiffer()
    ensures LessEq("4:", "6:") && !LessEq("6:", "4:")
  {
  }

  function Family(e: Entity): (r: (string, nat, nat, Cidr))
    requires e.IPv4? || e.IPv6?
    ensures ValidCidr(r.3, r.2)
  {
    if e.IPv4? then ("4:", 4, 32, e.cidr4) else ("6:", 16, 128, e.cidr6)
  }

  /** Section 3.1 of RFC 4632: containment of ranges is agreement on the leading bits. */
  lemma ContainsIsPrefix(s: Cidr, q: Cidr, width: nat)
    requires ValidCidr(s, width) && ValidCidr(q, width)
    ensures var size := Pow(2, width - s.length);
            Contains(s, q, width) <==> s.length <= q.length && q.address / size == s.address / size
  {
    hide Pow;
    var size, small := Pow(2, width - s.length), Pow(2, width - q.length);
    var a, b := s.address / size, q.address / small;
    assert s.address == a * size && q.address == b * small;
    if s.length <= q.length {
      var ratio := Pow(2, q.length - s.length);
      PowSum(2, q.length - s.length, width - q.length);
      assert size == ratio * small;
      Blocks(a, b, ratio, small);
    } else {
      PowGrows(width - s.length, width - q.length);
    }
  }

  lemma {:induction false} PowGrows(j: nat, k: nat)
    requires j < k
    ensures Pow(2, j) < Pow(2, k)
  {
    if j + 1 < k { PowGrows(j, k - 1); }
  }

  /** A small block starts inside a big one exactly when it lies inside it. */
  lemma Blocks(a: nat, b: nat, ratio: nat, small: nat)
    requires ratio > 0 && small > 0 && ratio * small > 0
    ensures var size := ratio * small;
            (b * small) / size == a <==> a * size <= b * small && b * small + small <= a * size + size
  {
    var size, end := ratio * small, a * ratio + ratio;
    QuotientIs(b * small, size, a);
    assert end * small == a * size + size;
    NextMultiple(b, end, small);
  }

  lemma NextMultiple(b: nat, end: nat, small: nat)
    requires small > 0
    ensures b * small < end * small <==> b * small + small <= end * small
  {
    if b < end { Numerals.MulMono(b + 1, end, small); } else { Numerals.MulMono(end, b, small); }
  }

  lemma QuotientIs(n: nat, size: nat, q: nat)
    requires size > 0
    ensures n / size == q <==> q * size <= n < q * size + size
  {
    Division(n, size);
    var p := n / size;
    if p < q { Numerals.MulMono(p + 1, q, size); }
    if q < p { Numerals.MulMono(q + 1, p, size); }
  }
}
