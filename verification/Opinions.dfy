/** Opinions and signed statements as text: semicolon separated fields, one opinion a line. */
module Opinions {
  import opened Text
  import opened Numerals
  import opened Entities
  import opened Options
  import opened Grammar
  import opened RoundTrip

  type U16 = n: nat | n < 0x1_0000
  type U8 = n: nat | n < 0x100
  type I8 = n: int | -0x80 <= n < 0x80

  /** The UTF-8 bytes of a text, a character each. */
  type ByteText = s: string | forall c | c in s :: c as int < 0x100

  datatype UnsignedOpinion =
    UnsignedOpinion(date: U32, valid: U16, serial: U8, certainty: I8, comment: ByteText)

  /** A signature is known by its base64 text. */
  datatype Opinion = Opinion(data: UnsignedOpinion, signer: PublicKey, signature: Base64Text)

  datatype SignedStatement = SignedStatement(statement: Statement, opinions: seq<Opinion>)

  /* ---- percent encoding ---- */

  /** Control characters, everything outside ASCII, and the delimiters of the formats. */
  predicate Escaped(c: char) {
    c as int < 0x20 || c as int >= 0x7F || c in " \",;()"
  }

  function Hex2(c: char): string
    requires c as int < 0x100
  {
    [UpperDigitChar(c as int / 16), UpperDigitChar(c as int % 16)]
  }

  function PercentEncode(s: ByteText): string {
    if s == "" then ""
    else (if Escaped(s[0]) then "%" + Hex2(s[0]) else [s[0]]) + PercentEncode(s[1..])
  }

  predicate IsEscape(s: string) {
    |s| >= 3 && s[0] == '%' && IsHex(s[1]) && IsHex(s[2])
  }

  function PercentDecode(s: string): string {
    if s == "" then ""
    else if IsEscape(s) then [(DigitValue(s[1]) * 16 + DigitValue(s[2])) as char] + PercentDecode(s[3..])
    else [s[0]] + PercentDecode(s[1..])
  }

  /** `%` itself is not escaped, so text that already looks escaped is decoded too far. */
  predicate HoldsEscape(s: string) {
    exists k | 0 <= k < |s| :: IsEscape(s[k..])
  }

  /** An encoded text begins with `%` or its own first character, which may also be `%`. */
  lemma EncodeHead(s: ByteText)
    requires s != ""
    ensures var p := PercentEncode(s);
            && p != ""
            && (Escaped(s[0]) ==> p[0] == '%' && !IsHex(s[0]))
            && (!Escaped(s[0]) ==> p[0] == s[0] && p[1..] == PercentEncode(s[1..]))
  {
  }

  lemma EncodeNothing()
    ensures PercentEncode("") == ""
  {
  }

  lemma EncodeStep(s: ByteText)
    requires s != "" && !Escaped(s[0])
    ensures IsEscape(PercentEncode(s)) <==> IsEscape(s)
    ensures IsEscape(s) ==> PercentEncode(s) == s[..3] + PercentEncode(s[3..])
  {
    hide PercentEncode, Escaped;
    assert PercentEncode("") == "" by { EncodeNothing(); }
    var t := s[1..];
    EncodeHead(s);
    if t != "" {
      var u := t[1..];
      EncodeHead(t);
      if u != "" {
        EncodeHead(u);
        assert u[1..] == s[3..];
      }
    }
  }

  lemma DecodeEscaped(c: char, rest: string)
    requires c as int < 0x100
    ensures PercentDecode("%" + Hex2(c) + rest) == [c] + PercentDecode(rest)
  {
    var s := "%" + Hex2(c) + rest;
    assert s[1] == Hex2(c)[0] && s[2] == Hex2(c)[1];
    assert s[3..] == rest;
  }

  lemma HoldsEscapeStep(s: string)
    requires s != ""
    ensures HoldsEscape(s) <==> IsEscape(s) || HoldsEscape(s[1..])
  {
    hide IsEscape;
    assert s[0..] == s;
    if HoldsEscape(s) && !IsEscape(s) {
      var k :| 0 <= k < |s| && IsEscape(s[k..]);
      assert s[k..] == s[1..][k - 1..];
    }
    if HoldsEscape(s[1..]) {
      var k :| 0 <= k < |s[1..]| && IsEscape(s[1..][k..]);
      assert s[1..][k..] == s[k + 1..];
    }
  }

  function Recoded(s: ByteText): string {
    PercentDecode(PercentEncode(s))
  }

  lemma RecodeStep(s: ByteText)
    requires s != ""
    ensures Recoded(s) == if IsEscape(s) then [(DigitValue(s[1]) * 16 + DigitValue(s[2])) as char] + Recoded(s[3..])
                          else [s[0]] + Recoded(s[1..])
  {
    if Escaped(s[0]) {
      DecodeEscaped(s[0], PercentEncode(s[1..]));
    } else {
      EncodeStep(s);
      if IsEscape(s) {
        assert PercentEncode(s)[3..] == PercentEncode(s[3..]);
      } else {
        assert PercentEncode(s)[1..] == PercentEncode(s[1..]);
      }
    }
  }

  /** Decoding what was encoded never makes a comment longer, and makes it shorter as soon
      as it holds something that looks like an escape. */
  lemma {:induction false} DecodeEncode(s: ByteText)
    ensures if HoldsEscape(s) then |Recoded(s)| < |s| else Recoded(s) == s
  {
    hide Recoded, HoldsEscape;
    if s == "" {
      EmptyComment();
    } else {
      HoldsEscapeStep(s);
      RecodeStep(s);
      if IsEscape(s) {
        DecodeEncode(s[3..]);
      } else {
        DecodeEncode(s[1..]);
      }
    }
  }

  lemma EmptyComment()
    ensures Recoded("") == "" && !HoldsEscape("")
  {
  }

  /** A comment survives encoding and decoding exactly when it holds no `%` that two
      hexadecimal digits follow. */
  lemma CommentRoundTrip(s: ByteText)
    ensures PercentDecode(PercentEncode(s)) == s <==> !HoldsEscape(s)
  {
    DecodeEncode(s);
  }

  /** `%41` is stored and sent as it is, and read as `A`. */
  lemma EscapeIsLost()
    ensures PercentDecode(PercentEncode("%41")) == "A"
  {
    var s := "%41";
    RecodeStep(s);
    assert s[3..] == "";
    assert Recoded("") == "" by { EmptyComment(); }
    assert DigitValue(s[1]) == 4 && DigitValue(s[2]) == 1;
  }

  lemma {:induction false} EncodedChars(s: ByteText)
    ensures forall c | c in PercentEncode(s) :: !Escaped(c)
  {
    if s != "" {
      EncodedChars(s[1..]);
    }
  }

  /* ---- opinions ---- */

  function SignedDecimal(n: int): string {
    if n < 0 then "-" + Decimal(0 - n) else Decimal(n)
  }

  function Fields(d: UnsignedOpinion): seq<string> {
    [Decimal(d.date), Decimal(d.valid), Decimal(d.serial), SignedDecimal(d.certainty), PercentEncode(d.comment)]
  }

  function UnsignedText(d: UnsignedOpinion): string {
    Join(Fields(d), ';')
  }

  function OpinionText(o: Opinion): string {
    UnsignedText(o.data) + ";" + KeyText(o.signer) + ";" + o.signature
  }

  /** An optional plus sign and digits, within a limit. */
  function ReadUnsigned(s: string, limit: nat): (r: Option<nat>)
    ensures r.Some? ==> r.value < limit
  {
    var t := if Starts(s, "+") then s[1..] else s;
    if t != "" && AllIn(t, Digit) && Value(t, 10) < limit then Some(Value(t, 10)) else None
  }

  function ReadCertainty(s: string): Option<I8> {
    if Starts(s, "-") then
      var t := s[1..];
      if t != "" && AllIn(t, Digit) && Value(t, 10) <= 0x80 then Some(0 - (Value(t, 10) as int)) else None
    else
      match ReadUnsigned(s, 0x80)
      case None => None
      case Some(n) => Some(n)
  }

  function KeyFromText(s: string): Option<PublicKey> {
    var parts := Split(s, ':');
    if |parts| < 2 then None
    else
      var k :=
        if parts[0] == "ed25519" then Some(PublicKey(Ed25519, parts[1]))
        else if parts[0] == "secp256k1" then Some(PublicKey(Secp256k1, parts[1]))
        else if parts[0] == "rsa" then Some(PublicKey(Rsa, parts[1]))
        else None;
      if k.Some? && ValidKey(k.value) then k else None
  }

  function DataFromFields(parts: seq<string>): Option<UnsignedOpinion>
    requires |parts| >= 5
  {
    var date := ReadUnsigned(parts[0], 0x1_0000_0000);
    var valid := ReadUnsigned(parts[1], 0x1_0000);
    var serial := ReadUnsigned(parts[2], 0x100);
    var certainty := ReadCertainty(parts[3]);
    var comment := PercentDecode(parts[4]);
    if date.Some? && valid.Some? && serial.Some? && certainty.Some? && forall c | c in comment :: c as int < 0x100
    then Some(UnsignedOpinion(date.value, valid.value, serial.value, certainty.value, comment))
    else None
  }

  function UnsignedFromText(s: string): Option<UnsignedOpinion> {
    var parts := Split(s, ';');
    if |parts| != 5 then None else DataFromFields(parts)
  }

  /** Bad numbers are errors; a key or signature that does not decode is a panic. */
  function OpinionFromText(s: string): (r: Parse<Opinion>)
    ensures r.Ok? ==> r.rest == ""
  {
    var parts := Split(s, ';');
    if |parts| != 7 then Err
    else
      match DataFromFields(parts)
      case None => Err
      case Some(data) =>
        match KeyFromText(parts[5])
        case None => Panic
        case Some(key) => if IsBase64(parts[6]) then Ok("", Opinion(data, key, parts[6])) else Panic
  }

  lemma DecimalReads(n: nat, limit: nat)
    requires n < limit
    ensures ReadUnsigned(Decimal(n), limit) == Some(n)
    ensures AllIn(Decimal(n), Digit)
  {
    ValueOfDigits(n, 10);
    var s := Decimal(n);
    assert In(s[0], Digit);
  }

  lemma CertaintyReads(n: I8)
    ensures ReadCertainty(SignedDecimal(n)) == Some(n)
    ensures forall c | c in SignedDecimal(n) :: c == '-' || IsDigit(c)
  {
    if n < 0 {
      var m: nat := 0 - (n as int);
      DecimalReads(m, 0x81);
      ValueOfDigits(m, 10);
      assert SignedDecimal(n)[1..] == Decimal(m);
    } else {
      DecimalReads(n, 0x80);
      assert In(Decimal(n)[0], Digit);
    }
  }

  lemma Base64Plain(s: string)
    requires IsBase64(s)
    ensures ';' !in s && '\n' !in s && ':' !in s
  {
    Base64Chars(s);
  }

  lemma KeyReads(k: PublicKey)
    requires ValidKey(k)
    ensures KeyFromText(KeyText(k)) == Some(k)
    ensures ';' !in KeyText(k) && '\n' !in KeyText(k)
  {
    hide IsBase64, Split, Join;
    Base64Plain(k.text);
    var scheme := match k.scheme case Ed25519 => "ed25519" case Secp256k1 => "secp256k1" case Rsa => "rsa";
    SplitNone(k.text, ':');
    SplitStep(scheme, ':', k.text);
    assert KeyText(k) == scheme + [':'] + k.text;
  }

  lemma FieldsArePlain(d: UnsignedOpinion)
    ensures forall f | f in Fields(d) :: ';' !in f && '\n' !in f
  {
    hide Decimal, SignedDecimal, PercentEncode, ReadUnsigned, ReadCertainty;
    DecimalReads(d.date, 0x1_0000_0000);
    DecimalReads(d.valid, 0x1_0000);
    DecimalReads(d.serial, 0x100);
    CertaintyReads(d.certainty);
    EncodedChars(d.comment);
    assert Escaped(';') && Escaped('\n') && !In(';', Digit) && !In('\n', Digit);
  }

  lemma FieldsRead(d: UnsignedOpinion, parts: seq<string>)
    requires |parts| >= 5 && parts[..5] == Fields(d)
    ensures DataFromFields(parts) == Some(d) <==> !HoldsEscape(d.comment)
  {
    hide HoldsEscape, PercentDecode, PercentEncode, Decimal, SignedDecimal, ReadUnsigned, ReadCertainty;
    assert forall k | 0 <= k < 5 :: parts[k] == Fields(d)[k];
    DecimalReads(d.date, 0x1_0000_0000);
    DecimalReads(d.valid, 0x1_0000);
    DecimalReads(d.serial, 0x100);
    CertaintyReads(d.certainty);
    CommentRoundTrip(d.comment);
  }

  /** An unsigned opinion survives printing and parsing exactly when its comment holds
      nothing that looks like an escape. */
  lemma UnsignedRoundTrip(d: UnsignedOpinion)
    ensures UnsignedFromText(UnsignedText(d)) == Some(d) <==> !HoldsEscape(d.comment)
  {
    hide DataFromFields, Fields, HoldsEscape, Split, Join;
    FieldsArePlain(d);
    FiveFields(d);
    SplitJoinClean(Fields(d), ';');
    assert Fields(d)[..5] == Fields(d);
    FieldsRead(d, Fields(d));
  }

  lemma FiveFields(d: UnsignedOpinion)
    ensures |Fields(d)| == 5
  {
  }

  /** The seven fields of the signed form. */
  function SevenFields(o: Opinion): seq<string> {
    Fields(o.data) + [KeyText(o.signer), o.signature]
  }

  lemma OpinionIsJoined(o: Opinion)
    ensures OpinionText(o) == Join(SevenFields(o), ';')
  {
    hide Join, Fields;
    var five := Fields(o.data);
    FiveFields(o.data);
    JoinSnoc(five, KeyText(o.signer), ';');
    JoinSnoc(five + [KeyText(o.signer)], o.signature, ';');
    assert SevenFields(o) == (five + [KeyText(o.signer)]) + [o.signature];
  }

  lemma OpinionIsPlain(o: Opinion)
    requires ValidKey(o.signer)
    ensures forall f | f in SevenFields(o) :: ';' !in f && '\n' !in f
    ensures '\n' !in OpinionText(o)
  {
    hide Join, Fields, KeyText, IsBase64;
    FieldsArePlain(o.data);
    KeyReads(o.signer);
    Base64Plain(o.signature);
    OpinionIsJoined(o);
    if '\n' in OpinionText(o) { JoinChars(SevenFields(o), ';', '\n'); }
  }

  lemma OpinionRoundTrip(o: Opinion)
    requires ValidKey(o.signer)
    ensures OpinionFromText(OpinionText(o)) == Ok("", o) <==> !HoldsEscape(o.data.comment)
  {
    hide DataFromFields, Fields, HoldsEscape, KeyFromText, KeyText, Split, Join, IsBase64;
    var parts := SevenFields(o);
    FiveFields(o.data);
    OpinionIsPlain(o);
    OpinionIsJoined(o);
    SplitJoinClean(parts, ';');
    assert parts[..5] == Fields(o.data);
    FieldsRead(o.data, parts);
    KeyReads(o.signer);
  }

  /* ---- signed statements ---- */

  function Lines(s: SignedStatement): seq<string> {
    [StatementText(s.statement)] + Texts(OpinionText, s.opinions)
  }

  function SignedText(s: SignedStatement): string {
    Join(Lines(s), '\n')
  }

  /** The statement, then every opinion on a line of its own. */
  method DisplaySigned(s: SignedStatement) returns (f: string)
    ensures f == SignedText(s)
  {
    hide OpinionText, StatementText, Join;
    f := DisplayStatement(s.statement);
    ghost var lines := Lines(s);
    assert lines[..1] == [StatementText(s.statement)];
    OneLine(StatementText(s.statement));
    for k := 0 to |s.opinions|
      invariant f == Join(lines[..k + 1], '\n')
    {
      f := f + "\n" + OpinionText(s.opinions[k]);
      JoinSnoc(lines[..k + 1], lines[k + 1], '\n');
      assert lines[..k + 2] == lines[..k + 1] + [lines[k + 1]];
    }
    assert lines[..|s.opinions| + 1] == lines;
  }

  lemma OneLine(s: string)
    ensures Join([s], '\n') == s
  {
  }

  function OpinionsFromLines(lines: seq<string>): (r: Parse<seq<Opinion>>)
    ensures r.Ok? ==> r.rest == ""
  {
    if lines == [] then Ok("", [])
    else
      match OpinionFromText(lines[0])
      case Err => Err
      case Panic => Panic
      case Ok(_, o) =>
        match OpinionsFromLines(lines[1..])
        case Err => Err
        case Panic => Panic
        case Ok(_, os) => Ok("", [o] + os)
  }

  function SignedFromText(s: string): Parse<SignedStatement> {
    var lines := Split(s, '\n');
    match StatementFromText(lines[0])
    case Err => Err
    case Panic => Panic
    case Ok(_, statement) =>
      match OpinionsFromLines(lines[1..])
      case Err => Err
      case Panic => Panic
      case Ok(_, opinions) => Ok("", SignedStatement(statement, opinions))
  }

  predicate PlainComments(os: seq<Opinion>) {
    forall o | o in os :: !HoldsEscape(o.data.comment)
  }

  lemma {:induction false} OpinionLinesRead(os: seq<Opinion>)
    requires forall o | o in os :: ValidKey(o.signer)
    ensures OpinionsFromLines(Texts(OpinionText, os)) == Ok("", os) <==> PlainComments(os)
  {
    hide OpinionFromText, OpinionText, HoldsEscape, ValidKey;
    if os != [] {
      OpinionRoundTrip(os[0]);
      OpinionLinesRead(os[1..]);
      assert os == [os[0]] + os[1..];
      assert PlainComments(os) <==> !HoldsEscape(os[0].data.comment) && PlainComments(os[1..]);
    }
  }

  /** A signed statement survives printing and parsing, with all its opinions in order,
      exactly when its statement does and no comment looks escaped. */
  lemma SignedRoundTrip(s: SignedStatement)
    requires forall o | o in s.opinions :: ValidKey(o.signer)
    ensures SignedFromText(SignedText(s)) == Ok("", s) <==> WellFormed(s.statement) && PlainComments(s.opinions)
  {
    hide StatementText, ParseStatement, OpinionText, OpinionsFromLines, HoldsEscape, ValidKey, Split, Join,
      Parseable, IsName;
    var lines := Split(SignedText(s), '\n');
    StatementRoundTrip(s.statement);
    OpinionLinesRead(s.opinions);
    if WellFormed(s.statement) {
      PrintableIsParseable(s.statement.entities);
      StatementIsPlain(s.statement);
      LinesSplit(s);
    } else if ParseStatement(lines[0]).Ok? && ParseStatement(lines[0]).value == s.statement {
      StatementParsed(lines[0]);
      StatementIsPlain(s.statement);
      LinesSplit(s);
    }
  }

  lemma PrintableIsParseable(es: seq<Entity>)
    requires AllPrintable(es)
    ensures forall e | e in es :: Parseable(e)
  {
  }

  lemma LinesSplit(s: SignedStatement)
    requires forall o | o in s.opinions :: ValidKey(o.signer)
    requires '\n' !in StatementText(s.statement)
    ensures Split(SignedText(s), '\n') == Lines(s)
    ensures Lines(s)[0] == StatementText(s.statement) && Lines(s)[1..] == Texts(OpinionText, s.opinions)
  {
    hide StatementText, OpinionText, ValidKey, Split, Join;
    var texts := Texts(OpinionText, s.opinions);
    forall k | 0 <= k < |texts| ensures '\n' !in texts[k] {
      OpinionIsPlain(s.opinions[k]);
    }
    assert forall l | l in texts :: '\n' !in l;
    SplitJoinClean(Lines(s), '\n');
  }
}
