/** Entities, templates and statements, and the text each of them prints as. */
module Entities {
  import opened Text
  import opened Numerals

  datatype EntityType =
    | TemplateType | SignerType | DomainType | EMailType | HashValueType | ASType | IPv4Type | IPv6Type | UrlType

  datatype Template = Template(name: string, entityTypes: seq<seq<EntityType>>)

  datatype Scheme = Ed25519 | Secp256k1 | Rsa

  /** A public key is known by its scheme and the base64 text of its encoding. */
  datatype PublicKey = PublicKey(scheme: Scheme, text: string)

  type U32 = n: nat | n < 0x1_0000_0000

  /** A network: its first address as a number, and its prefix length. */
  datatype Cidr = Cidr(address: nat, length: nat)

  predicate ValidCidr(c: Cidr, width: nat) {
    && c.length <= width
    && c.address < Pow(2, width)
    && c.address % Pow(2, width - c.length) == 0
  }

  type Cidr4 = c: Cidr | ValidCidr(c, 32) witness Cidr(0, 0)
  type Cidr6 = c: Cidr | ValidCidr(c, 128) witness Cidr(0, 0)

  datatype Entity =
    | Domain(domain: string)
    | EMail(address: string)
    | AS(number: U32)
    | IPv4(cidr4: Cidr4)
    | IPv6(cidr6: Cidr6)
    | Signer(key: PublicKey)
    | Url(url: string)
    | HashValue(hash: string)
    | TemplateEntity(template: Template)

  datatype Statement = Statement(name: string, entities: seq<Entity>)

  /** Base64 as the grammar recognizes it: a body, then any number of `=`. */
  predicate IsBase64(s: string) {
    var n := Span(s, Base64Body);
    n >= 1 && n + Span(s[n..], Pad) == |s|
  }

  type Base64Text = s: string | IsBase64(s) witness "A"

  /** The base64 text of a SHA-256 digest, as some fixed but arbitrary function. */
  const SHA256_BASE64: string -> Base64Text

  /** Which texts decode to a key of their scheme: some fixed but arbitrary set. */
  const KEY_DECODES: PublicKey -> bool

  /** A key as it exists in memory, that is, after decoding. */
  predicate ValidKey(k: PublicKey) {
    IsBase64(k.text) && KEY_DECODES(k)
  }

  function TypeOf(e: Entity): EntityType {
    match e
    case Domain(_) => DomainType
    case EMail(_) => EMailType
    case AS(_) => ASType
    case IPv4(_) => IPv4Type
    case IPv6(_) => IPv6Type
    case Signer(_) => SignerType
    case Url(_) => UrlType
    case HashValue(_) => HashValueType
    case TemplateEntity(_) => TemplateType
  }

  function HashEmails(e: Entity): Entity {
    if e.EMail? then HashValue(SHA256_BASE64(e.address)) else e
  }

  function SignerStatement(key: PublicKey): Statement {
    Statement("signer", [Signer(key)])
  }

  /* ---- printing ---- */

  function TypeText(t: EntityType): string {
    match t
    case DomainType => "Domain"
    case EMailType => "EMail"
    case ASType => "AS"
    case IPv4Type => "IPv4"
    case IPv6Type => "IPv6"
    case SignerType => "Signer"
    case UrlType => "Url"
    case HashValueType => "HashValue"
    case TemplateType => "Template"
  }

  /** In a template the type of an entity goes by this name, and no other type does. */
  lemma TypesAreNamed(e: Entity)
    ensures var name := TypeText(TypeOf(e));
            && (e.Domain? <==> name == "Domain") && (e.EMail? <==> name == "EMail") && (e.AS? <==> name == "AS")
            && (e.IPv4? <==> name == "IPv4") && (e.IPv6? <==> name == "IPv6") && (e.Signer? <==> name == "Signer")
            && (e.Url? <==> name == "Url") && (e.HashValue? <==> name == "HashValue")
            && (e.TemplateEntity? <==> name == "Template")
  {
    var name := TypeText(TypeOf(e));
    assert |name| > 3 ==> name[3] in "ai46nhp";
  }

  function Texts<T>(f: T -> string, xs: seq<T>): (ts: seq<string>)
    ensures |ts| == |xs|
    ensures forall k | 0 <= k < |xs| :: ts[k] == f(xs[k])
  {
    if xs == [] then [] else [f(xs[0])] + Texts(f, xs[1..])
  }

  function AlternativesText(ts: seq<EntityType>): string {
    Join(Texts(TypeText, ts), '|')
  }

  function TemplateText(t: Template): string {
    t.name + "(" + Join(Texts(AlternativesText, t.entityTypes), ',') + ")"
  }

  function KeyText(k: PublicKey): string {
    (match k.scheme
     case Ed25519 => "ed25519:"
     case Secp256k1 => "secp256k1:"
     case Rsa => "rsa:") + k.text
  }

  function Decimal(n: nat): string {
    Digits(n, 10)
  }

  function HexGroup(n: nat): string {
    Digits(n, 16)
  }

  /** A host address is printed without its prefix length. */
  function MaskText(c: Cidr, width: nat): string {
    if c.length == width then "" else "/" + Decimal(c.length)
  }

  function Ipv4AddressText(address: nat): string {
    Join(Texts(Decimal, Fixed(address, 256, 4)), '.')
  }

  function Ipv4Text(c: Cidr): string {
    Ipv4AddressText(c.address) + MaskText(c, 32)
  }

  /** Length of the run of zero groups that starts at `k`. */
  function ZeroRun(groups: seq<nat>, k: nat): (n: nat)
    requires k <= |groups|
    ensures k + n <= |groups|
    ensures forall j | k <= j < k + n :: groups[j] == 0
    ensures k + n < |groups| ==> groups[k + n] != 0
    decreases |groups| - k
  {
    if k == |groups| || groups[k] != 0 then 0 else 1 + ZeroRun(groups, k + 1)
  }

  /** The leftmost longest run of zero groups at or after `k`, as (start, length). */
  function LongestZeroRun(groups: seq<nat>, k: nat): (run: (nat, nat))
    requires k <= |groups|
    ensures run.0 + run.1 <= |groups|
    ensures forall j | run.0 <= j < run.0 + run.1 :: groups[j] == 0
    ensures run.0 + run.1 < |groups| && run.1 > 0 ==> groups[run.0 + run.1] != 0
    decreases |groups| - k
  {
    if k == |groups| then (0, 0)
    else
      var here := ZeroRun(groups, k);
      var later := LongestZeroRun(groups, k + 1);
      if here > 0 && here >= later.1 then (k, here) else later
  }

  /** No run is longer, and none of those before it is as long: section 4.2.3 of RFC 5952. */
  lemma {:induction false} LongestIsLeftmost(groups: seq<nat>, k: nat)
    requires k <= |groups|
    ensures var (start, n) := LongestZeroRun(groups, k);
            && (forall j | k <= j <= |groups| :: ZeroRun(groups, j) <= n)
            && (n > 0 ==> k <= start && ZeroRun(groups, start) == n && forall j | k <= j < start :: ZeroRun(groups, j) < n)
    decreases |groups| - k
  {
    hide ZeroRun;
    if k == |groups| {
      assert ZeroRun(groups, k) == 0;
    } else {
      LongestIsLeftmost(groups, k + 1);
      var (start, n) := LongestZeroRun(groups, k + 1);
      var here := ZeroRun(groups, k);
      assert forall j | k <= j <= |groups| :: j == k || ZeroRun(groups, j) <= n;
      if !(here > 0 && here >= n) && n > 0 {
        assert forall j | k <= j < start :: j == k || ZeroRun(groups, j) < n;
      }
    }
  }

  function GroupsText(groups: seq<nat>): string {
    Join(Texts(HexGroup, groups), ':')
  }

  /** Section 4 of RFC 5952: the longest run of two or more zero groups becomes `::`;
      IPv4-mapped addresses end in dotted decimal. */
  function Ipv6AddressText(address: nat): string {
    var groups := Fixed(address, 65536, 8);
    if groups[..6] == [0, 0, 0, 0, 0, 65535] then
      "::ffff:" + Ipv4AddressText(groups[6] * 65536 + groups[7])
    else
      var (start, n) := LongestZeroRun(groups, 0);
      if n > 1 then GroupsText(groups[..start]) + "::" + GroupsText(groups[start + n..])
      else GroupsText(groups)
  }

  function Ipv6Text(c: Cidr): string {
    Ipv6AddressText(c.address) + MaskText(c, 128)
  }

  function EntityText(e: Entity): string {
    match e
    case Domain(s) => s
    case EMail(s) => s
    case AS(n) => "AS" + Decimal(n)
    case IPv4(c) => Ipv4Text(c)
    case IPv6(c) => Ipv6Text(c)
    case Signer(k) => KeyText(k)
    case Url(s) => s
    case HashValue(s) => "#" + s
    case TemplateEntity(t) => TemplateText(t)
  }

  function StatementText(s: Statement): string {
    s.name + "(" + Join(Texts(EntityText, s.entities), ',') + ")"
  }

  /** Printing in one pass: a comma before every entity but the first. */
  method DisplayStatement(s: Statement) returns (f: string)
    ensures f == StatementText(s)
  {
    hide EntityText;
    f := s.name + "(";
    var first := true;
    ghost var texts := Texts(EntityText, s.entities);
    for k := 0 to |s.entities|
      invariant first == (k == 0)
      invariant f == s.name + "(" + Join(texts[..k], ',')
    {
      if first {
        first := false;
      } else {
        f := f + ",";
      }
      f := f + EntityText(s.entities[k]);
      JoinSnoc(texts[..k], texts[k], ',');
      assert texts[..k + 1] == texts[..k] + [texts[k]];
    }
    assert texts[..|s.entities|] == texts;
    f := f + ")";
  }

  lemma {:induction false} JoinSnoc(parts: seq<string>, p: string, c: char)
    ensures Join(parts + [p], c) == if parts == [] then p else Join(parts, c) + [c] + p
  {
    if |parts| >= 2 {
      JoinSnoc(parts[1..], p, c);
      assert (parts + [p])[1..] == parts[1..] + [p];
    }
  }

  predicate Matches(s: Statement, t: Template) {
    && s.name == t.name
    && |s.entities| == |t.entityTypes|
    && forall k | 0 <= k < |s.entities| :: TypeOf(s.entities[k]) in t.entityTypes[k]
  }

  /** The zip loop with early return decides `Matches`. */
  method MatchesTemplate(s: Statement, t: Template) returns (yes: bool)
    ensures yes <==> Matches(s, t)
  {
    if s.name != t.name || |s.entities| != |t.entityTypes| {
      return false;
    }
    for k := 0 to |s.entities|
      invariant forall j | 0 <= j < k :: TypeOf(s.entities[j]) in t.entityTypes[j]
    {
      if TypeOf(s.entities[k]) !in t.entityTypes[k] {
        return false;
      }
    }
    return true;
  }
}
