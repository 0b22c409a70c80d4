/** The ordered-choice parser. A recognizer of a repeated character class is a greedy
    span; everything else follows the source's combinators one to one. */
module Grammar {
  import opened Text
  import opened Numerals
  import opened Entities

  /** `Panic` is the failed `expect` on a key that does not decode. */
  datatype Parse<+T> = Ok(rest: string, value: T) | Err | Panic

  function Or<T>(first: Parse<T>, second: Parse<T>): Parse<T> {
    if first.Err? then second else first
  }

  predicate Starts(i: string, t: string) {
    |t| <= |i| && forall k | 0 <= k < |t| :: i[k] == t[k]
  }

  /* ---- lists with a separator ---- */

  datatype Separator = One(c: char) | Blanks

  function SeparatorLength(sep: Separator, i: string): (n: nat)
    ensures n <= |i|
  {
    match sep
    case One(c) => if i != "" && i[0] == c then 1 else 0
    case Blanks => Span(i, Blank)
  }

  /** The repetitions after the first element. An element that fails gives its separator
      back; one that consumes nothing is an error. */
  function More<T>(sep: Separator, p: string -> Parse<T>, i: string): (r: Parse<seq<T>>)
    decreases |i|
  {
    var n := SeparatorLength(sep, i);
    if n == 0 then Ok(i, [])
    else
      match p(i[n..])
      case Err => Ok(i, [])
      case Panic => Panic
      case Ok(rest, x) =>
        if |rest| >= |i| then Err
        else
          match More(sep, p, rest)
          case Err => Err
          case Panic => Panic
          case Ok(rest', xs) => Ok(rest', [x] + xs)
  }

  function SeparatedList<T>(sep: Separator, p: string -> Parse<T>, i: string): Parse<seq<T>> {
    match p(i)
    case Err => Err
    case Panic => Panic
    case Ok(rest, x) =>
      match More(sep, p, rest)
      case Err => Err
      case Panic => Panic
      case Ok(rest', xs) => Ok(rest', [x] + xs)
  }

  /* ---- names, domains, addresses ---- */

  function NameLength(i: string): (n: nat)
    ensures n <= |i|
  {
    var a := Span(i, Alpha);
    if a == 0 then 0 else a + Span(i[a..], NameTail)
  }

  function LabelLength(i: string): (n: nat)
    ensures n <= |i|
  {
    var a := Span(i, Alnum);
    if a == 0 then 0 else a + Span(i[a..], LabelTail)
  }

  /** Labels followed by a dot as long as they go, then letters; 0 when that fails. */
  function DomainLength(i: string): (n: nat)
    ensures n <= |i|
  {
    var n := LabelLength(i);
    if n > 0 && n < |i| && i[n] == '.' then
      var m := DomainLength(i[n + 1..]);
      if m == 0 then 0 else n + 1 + m
    else Span(i, Alpha)
  }

  function ParseDomain(i: string): Parse<Entity> {
    var n := DomainLength(i);
    if n == 0 then Err else Ok(i[n..], Domain(i[..n]))
  }

  function EmailLength(i: string): (n: nat)
    ensures n <= |i|
  {
    var n := Span(i, Local);
    if n == 0 || n == |i| || i[n] != '@' then 0
    else
      var m := DomainLength(i[n + 1..]);
      if m == 0 then 0 else n + 1 + m
  }

  function ParseEmail(i: string): Parse<Entity> {
    var n := EmailLength(i);
    if n == 0 then Err else Ok(i[n..], EMail(i[..n]))
  }

  function Base64Length(i: string): (n: nat)
    ensures n <= |i|
  {
    var a := Span(i, Base64Body);
    if a == 0 then 0 else a + Span(i[a..], Pad)
  }

  /** `#`, then a raw e-mail address to be hashed, or a hash. */
  function ParseHashValue(i: string): Parse<Entity> {
    if !Starts(i, "#") then Err
    else
      var j := i[1..];
      var n := EmailLength(j);
      if n > 0 then Ok(j[n..], HashValue(SHA256_BASE64(j[..n])))
      else
        var m := Base64Length(j);
        if m == 0 then Err else Ok(j[m..], HashValue(j[..m]))
  }

  function ParseAsn(i: string): Parse<Entity> {
    if !Starts(i, "AS") then Err
    else
      var n := Span(i[2..], Digit);
      if n == 0 || Value(i[2..2 + n], 10) >= 0x1_0000_0000 then Err
      else Ok(i[2 + n..], AS(Value(i[2..2 + n], 10)))
  }

  const SECP := "secp256k1:"

  function ParseSigner(i: string): Parse<Entity> {
    if !Starts(i, SECP) then Err
    else
      var j := i[10..];
      var n := Base64Length(j);
      if n == 0 then Err
      else if KEY_DECODES(PublicKey(Secp256k1, j[..n])) then Ok(j[n..], Signer(PublicKey(Secp256k1, j[..n])))
      else Panic
  }

  /** `k` runs of digits with dots between them. */
  function DottedDigits(i: string, k: nat): (r: Parse<seq<string>>)
    requires k >= 1
    ensures r.Ok? ==> |r.value| == k
    decreases k
  {
    var n := Span(i, Digit);
    if n == 0 then Err
    else if k == 1 then Ok(i[n..], [i[..n]])
    else if n == |i| || i[n] != '.' then Err
    else
      match DottedDigits(i[n + 1..], k - 1)
      case Err => Err
      case Panic => Panic
      case Ok(rest, ds) => Ok(rest, [i[..n]] + ds)
  }

  datatype Mask = NoMask | MaskDigits(digits: string)

  /** The optional `/` and prefix length. */
  function ReadMask(i: string): (string, Mask) {
    if !Starts(i, "/") then (i, NoMask)
    else
      var n := Span(i[1..], Digit);
      if n == 0 then (i, NoMask) else (i[1 + n..], MaskDigits(i[1..1 + n]))
  }

  /** A missing prefix length means a host address; set host bits are refused. */
  function MakeCidr(address: nat, mask: Mask, width: nat): (r: Parse<Cidr>)
    ensures r.Ok? ==> ValidCidr(r.value, width)
  {
    var length := if mask.NoMask? then width else Value(mask.digits, 10);
    var c := Cidr(address, length);
    if ValidCidr(c, width) then Ok("", c) else Err
  }

  predicate IsOctet(s: string) {
    && AllIn(s, Digit)
    && 1 <= |s| <= 3
    && (s[0] == '0' ==> |s| == 1)
    && Value(s, 10) < 256
  }

  function Octets(parts: seq<string>): (ds: seq<nat>)
    ensures |ds| == |parts|
    ensures forall k | 0 <= k < |parts| :: ds[k] == Value(parts[k], 10)
  {
    if parts == [] then [] else [Value(parts[0], 10)] + Octets(parts[1..])
  }

  function ParseIpv4(i: string): Parse<Entity> {
    match DottedDigits(i, 4)
    case Err => Err
    case Panic => Panic
    case Ok(i', parts) =>
      var (rest, mask) := ReadMask(i');
      if forall k | 0 <= k < 4 :: IsOctet(parts[k]) then
        match MakeCidr(Unfixed(Octets(parts), 256), mask, 32)
        case Ok(_, c) => Ok(rest, IPv4(c))
        case Err => Err
        case Panic => Panic
      else Err
  }

  /** Where `::` first occurs, or the length of the text. */
  function DoubleColon(s: string): (n: nat)
    ensures n <= |s|
    ensures n < |s| ==> n + 1 < |s| && s[n] == ':' && s[n + 1] == ':'
  {
    if |s| < 2 then |s|
    else if s[0] == ':' && s[1] == ':' then 0
    else 1 + DoubleColon(s[1..])
  }

  predicate IsGroup(s: string) {
    AllIn(s, Hex) && 1 <= |s| <= 4
  }

  /** Colon-separated groups; no text is no groups. */
  function ReadGroups(s: string): Parse<seq<nat>> {
    if s == "" then Ok("", [])
    else
      var parts := Split(s, ':');
      if forall p | p in parts :: IsGroup(p) then Ok("", GroupValues(parts)) else Err
  }

  function GroupValues(parts: seq<string>): (gs: seq<nat>)
    ensures |gs| == |parts|
    ensures forall k | 0 <= k < |parts| :: gs[k] == Value(parts[k], 16)
  {
    if parts == [] then [] else [Value(parts[0], 16)] + GroupValues(parts[1..])
  }

  /** Section 2.2 of RFC 4291: eight groups, or fewer around one `::`. */
  function Ipv6Groups(s: string): (r: Parse<seq<nat>>)
    ensures r.Ok? ==> |r.value| == 8
  {
    var n := DoubleColon(s);
    if n == |s| then
      match ReadGroups(s)
      case Ok(_, gs) => if |gs| == 8 then Ok("", gs) else Err
      case _ => Err
    else
      match ReadGroups(s[..n])
      case Ok(_, head) =>
        (match ReadGroups(s[n + 2..])
         case Ok(_, tail) =>
           if |head| + |tail| <= 7 then Ok("", head + Zeros(8 - |head| - |tail|) + tail) else Err
         case _ => Err)
      case _ => Err
  }

  function Zeros(n: nat): (zs: seq<nat>)
    ensures |zs| == n
    ensures forall k | 0 <= k < n :: zs[k] == 0
  {
    seq(n, _ => 0)
  }

  function ParseIpv6(i: string): Parse<Entity> {
    var h := Span(i, Hex);
    var c := Span(i[h..], HexColon);
    if h == 0 || c == 0 then Err
    else
      var (rest, mask) := ReadMask(i[h + c..]);
      match Ipv6Groups(i[..h + c])
      case Ok(_, gs) =>
        (match MakeCidr(Unfixed(gs, 65536), mask, 128)
         case Ok(_, cidr) => Ok(rest, IPv6(cidr))
         case Err => Err
         case Panic => Panic)
      case _ => Err
  }

  /* ---- templates ---- */

  function ParseType(i: string): Parse<EntityType> {
    if Starts(i, "Domain") then Ok(i[6..], DomainType)
    else if Starts(i, "EMail") then Ok(i[5..], EMailType)
    else if Starts(i, "AS") then Ok(i[2..], ASType)
    else if Starts(i, "IPv4") then Ok(i[4..], IPv4Type)
    else if Starts(i, "IPv6") then Ok(i[4..], IPv6Type)
    else if Starts(i, "Signer") then Ok(i[6..], SignerType)
    else if Starts(i, "Url") then Ok(i[3..], UrlType)
    else if Starts(i, "HashValue") then Ok(i[9..], HashValueType)
    else if Starts(i, "Template") then Ok(i[8..], TemplateType)
    else Err
  }

  function ParseAlternatives(i: string): Parse<seq<EntityType>> {
    SeparatedList(One('|'), ParseType, i)
  }

  function ParseTypes(i: string): Parse<seq<seq<EntityType>>> {
    SeparatedList(One(','), ParseAlternatives, i)
  }

  function ParseTemplate(i: string): Parse<Entity> {
    var n := NameLength(i);
    if n == 0 || !Starts(i[n..], "(") then Err
    else
      match ParseTypes(i[n + 1..])
      case Err => Err
      case Panic => Panic
      case Ok(rest, types) =>
        if !Starts(rest, ")") then Err
        else Ok(rest[1..], TemplateEntity(Template(i[..n], types)))
  }

  /* ---- entities and statements ---- */

  function ParseEntity(i: string): Parse<Entity> {
    Or(ParseEmail(i),
    Or(ParseHashValue(i),
    Or(ParseTemplate(i),
    Or(ParseAsn(i),
    Or(ParseSigner(i),
    Or(ParseDomain(i),
    Or(ParseIpv4(i),
       ParseIpv6(i))))))))
  }

  /** The standard form, with parentheses and commas. */
  function ParseStandard(i: string): Parse<Statement> {
    var n := NameLength(i);
    if n == 0 || !Starts(i[n..], "(") then Err
    else
      match SeparatedList(One(','), ParseEntity, i[n + 1..])
      case Err => Err
      case Panic => Panic
      case Ok(rest, es) =>
        if !Starts(rest, ")") then Err else Ok(rest[1..], Statement(i[..n], es))
  }

  /** The form for typing, with blanks. */
  function ParseTyped(i: string): Parse<Statement> {
    var n := NameLength(i);
    var b := Span(i[n..], Blank);
    if n == 0 || b == 0 then Err
    else
      match SeparatedList(Blanks, ParseEntity, i[n + b..])
      case Err => Err
      case Panic => Panic
      case Ok(rest, es) => Ok(rest, Statement(i[..n], es))
  }

  function ParseStatement(i: string): Parse<Statement> {
    Or(ParseStandard(i), ParseTyped(i))
  }

  /** What is left over makes the whole text invalid. */
  function AllConsuming<T>(r: Parse<T>): Parse<T> {
    if r.Ok? && r.rest != "" then Err else r
  }

  function EntityFromText(s: string): Parse<Entity> {
    AllConsuming(ParseEntity(s))
  }

  function StatementFromText(s: string): Parse<Statement> {
    AllConsuming(ParseStatement(s))
  }

  function TemplateFromText(s: string): Parse<Entity> {
    AllConsuming(ParseTemplate(s))
  }
}
