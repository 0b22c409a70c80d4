/** Which stored statements are about an entity. */
module Lookup {
  import opened Text
  import opened Numerals
  import opened Entities
  import opened Grammar
  import opened RoundTrip
  import opened CidrIndex
  import opened LookupKeys
  import opened Tables
  import opened Store
  import opened StoreInvariants
  import opened Listing

  predicate RefersByIndex(d: StatementData, e: Entity) {
    match CidrKeys(e)
    case (Some(min), Some(max)) => IndexMatch(d.cidrMin, d.cidrMax, min, max)
    case _ => d.contents.e1 == EntityText(e)
  }

  /** Networks by the range columns, everything else by the text of the first entity. */
  function FindReferencing(t: Table<StatementData>, e: Entity): Table<StatementData> {
    Keep(t, (r: Row<StatementData>) => RefersByIndex(r.data, e))
  }

  function FindAll(t: Table<StatementData>, es: seq<Entity>): Table<StatementData> {
    if es == [] then [] else FindReferencing(t, es[0]) + FindAll(t, es[1..])
  }

  /** The second entities of the `asn` statements among the rows. */
  function Asns(rows: Table<StatementData>): seq<Entity> {
    if rows == [] then []
    else
      var rest := Asns(rows[1..]);
      match ReadContents(rows[0].data.contents)
      case Some(s) => if s.name == "asn" && |s.entities| > 1 then [s.entities[1]] + rest else rest
      case None => rest
  }

  function FindAbout(t: Table<StatementData>, e: Entity): Table<StatementData>
    requires e.EMail? ==> '@' in e.address
  {
    var rows := FindAll(t, AllKeys(e));
    rows + FindAll(t, Asns(rows))
  }

  /* ---- what is found ---- */

  /** The statement's first entity is a network that covers this one, or, for an entity that
      is no network, prints like the entity. */
  ghost predicate RefersTo(s: Statement, e: Entity) {
    s.entities != [] &&
    if e.IPv4? || e.IPv6? then Covers(s.entities[0], e) else EntityText(s.entities[0]) == EntityText(e)
  }

  ghost predicate RowRefersTo(r: Row<StatementData>, e: Entity) {
    ReadContents(r.data.contents).Some? && RefersTo(ReadContents(r.data.contents).value, e)
  }

  ghost predicate RowIsAbout(r: Row<StatementData>, e: Entity) {
    var s := ReadContents(r.data.contents);
    s.Some? && s.value.entities != [] && s.value.entities[0] == e
  }

  predicate IsNetwork(e: Entity) {
    e.IPv4? || e.IPv6?
  }

  /** The lookup finds exactly the rows that refer to the entity. For an entity whose text
      reads back, and that is no network, these are the rows whose first entity it is. */
  lemma ReferencingMeans(t: Table<StatementData>, e: Entity, ar: Arity)
    requires GoodArity(ar) && ValidStatements(t, ar)
    ensures forall r :: r in FindReferencing(t, e) <==> r in t && RowRefersTo(r, e)
    ensures Printable(e) && !IsNetwork(e) ==> forall r | r in t :: RowRefersTo(r, e) <==> RowIsAbout(r, e)
  {
    hide RowRefersTo, RowIsAbout, RefersByIndex, Printable, IsNetwork, Increasing, Faithful;
    forall r | r in t
      ensures RowRefersTo(r, e) <==> RefersByIndex(r.data, e)
      ensures Printable(e) && !IsNetwork(e) ==> (RowRefersTo(r, e) <==> RowIsAbout(r, e))
    {
      RowRefers(t, r, e, ar);
    }
  }

  lemma RowRefers(t: Table<StatementData>, r: Row<StatementData>, e: Entity, ar: Arity)
    requires GoodArity(ar) && ValidStatements(t, ar) && r in t
    ensures RefersByIndex(r.data, e) <==> RowRefersTo(r, e)
    ensures Printable(e) && !IsNetwork(e) ==> (RowRefersTo(r, e) <==> RowIsAbout(r, e))
  {
    hide ReadContents, Increasing, Printable, EntityText, EntityFromText, AddressKey, IndexMatch, Covers;
    RowReads(r, t, ar);
    var s := ReadContents(r.data.contents).value;
    ContentsDetermineRow(r.data, s, ar);
    var f := s.entities[0];
    assert f in s.entities;
    if IsNetwork(e) {
      IndexIsExact(f, e);
    } else {
      EntityRoundTrip(e);
      EntityRoundTrip(f);
    }
  }

  lemma {:induction false} FindAllMembers(t: Table<StatementData>, es: seq<Entity>)
    ensures forall r :: r in FindAll(t, es) <==> exists e | e in es :: r in FindReferencing(t, e)
  {
    hide FindReferencing;
    if es != [] {
      FindAllMembers(t, es[1..]);
      assert forall e :: e in es <==> e == es[0] || e in es[1..];
    }
  }

  /** `s` says which AS, or other entity, its first entity belongs to. */
  predicate NamesAs(s: Statement, a: Entity) {
    s.name == "asn" && |s.entities| > 1 && s.entities[1] == a
  }

  lemma {:induction false} AsnMembers(rows: Table<StatementData>)
    ensures forall a :: a in Asns(rows) <==>
              exists r | r in rows :: ReadContents(r.data.contents).Some? && NamesAs(ReadContents(r.data.contents).value, a)
  {
    hide ReadContents;
    if rows != [] {
      AsnMembers(rows[1..]);
      assert forall r :: r in rows <==> r == rows[0] || r in rows[1..];
    }
  }

  ghost predicate RowNames(r: Row<StatementData>, a: Entity) {
    ReadContents(r.data.contents).Some? && NamesAs(ReadContents(r.data.contents).value, a)
  }

  lemma NamedIsPrintable(t: Table<StatementData>, q: Row<StatementData>, a: Entity, ar: Arity)
    requires GoodArity(ar) && ValidStatements(t, ar) && q in t
    requires RowNames(q, a)
    ensures Printable(a)
  {
    hide ReadContents, Increasing, Faithful, Printable;
    RowReads(q, t, ar);
    var s := ReadContents(q.data.contents).value;
    assert s.entities[1] in s.entities;
  }

  lemma {:induction false} FoundIsStored(t: Table<StatementData>, es: seq<Entity>, q: Row<StatementData>)
    requires q in FindAll(t, es)
    ensures q in t
  {
    if q !in FindReferencing(t, es[0]) { FoundIsStored(t, es[1..], q); }
  }

  /** The AS step: the statements about whatever an `asn` statement among the rows names. */
  lemma AsnStep(t: Table<StatementData>, rows: Table<StatementData>, ar: Arity)
    requires GoodArity(ar) && ValidStatements(t, ar) && forall q | q in rows :: q in t
    ensures forall r :: r in FindAll(t, Asns(rows)) <==>
              r in t && exists q, a | q in rows && RowNames(q, a) :: RowRefersTo(r, a)
  {
    hide ReadContents, RefersTo, FindReferencing, Asns, ValidStatements, NamesAs;
    AsnMembers(rows);
    FindAllMembers(t, Asns(rows));
    forall a | a in Asns(rows)
      ensures (exists q | q in rows :: RowNames(q, a)) && forall r :: r in FindReferencing(t, a) <==> r in t && RowRefersTo(r, a)
    {
      var q :| q in rows && RowNames(q, a);
      NamedIsPrintable(t, q, a, ar);
      ReferencingMeans(t, a, ar);
    }
    forall q, a | q in rows && RowNames(q, a) ensures a in Asns(rows) {
    }
  }

  /** Looking up a network finds, first, the statements whose first entity covers it, and
      after them those about whatever an `asn` statement among the first ones names. */
  lemma AboutNetwork(t: Table<StatementData>, e: Entity, ar: Arity)
    requires GoodArity(ar) && ValidStatements(t, ar) && (e.IPv4? || e.IPv6?)
    ensures FindReferencing(t, e) <= FindAbout(t, e)
    ensures forall r :: r in FindReferencing(t, e) <==> r in t && RowRefersTo(r, e)
    ensures forall r :: r in FindAbout(t, e) <==>
              || (r in t && RowRefersTo(r, e))
              || (r in t && exists q, a | q in t && RowRefersTo(q, e) && RowNames(q, a) :: RowRefersTo(r, a))
  {
    hide ReadContents, RefersTo, FindReferencing, Asns, ValidStatements, NamesAs;
    var first := FindReferencing(t, e);
    assert AllKeys(e) == [e];
    assert FindAll(t, [e]) == first + FindAll(t, []);
    assert FindAll(t, AllKeys(e)) == first;
    ReferencingMeans(t, e, ar);
    AsnStep(t, first, ar);
  }

  /** Looking up any other entity goes through its keys in order, and then through what the
      `asn` statements found so far name. */
  lemma AboutOthers(t: Table<StatementData>, e: Entity, ar: Arity)
    requires GoodArity(ar) && ValidStatements(t, ar)
    requires e.EMail? ==> '@' in e.address
    ensures FindAll(t, AllKeys(e)) <= FindAbout(t, e)
    ensures forall r :: r in FindAll(t, AllKeys(e)) <==> r in t && exists k | k in AllKeys(e) :: RowRefersTo(r, k)
    ensures forall r :: r in FindAbout(t, e) <==>
              || (r in t && exists k | k in AllKeys(e) :: RowRefersTo(r, k))
              || (r in t && exists q, a | q in FindAll(t, AllKeys(e)) && RowNames(q, a) :: RowRefersTo(r, a))
  {
    hide ReadContents, RefersTo, FindReferencing, Asns, ValidStatements, NamesAs, AllKeys;
    var first := FindAll(t, AllKeys(e));
    FindAllMembers(t, AllKeys(e));
    forall k ensures forall r :: r in FindReferencing(t, k) <==> r in t && RowRefersTo(r, k) {
      ReferencingMeans(t, k, ar);
    }
    forall q | q in first ensures q in t {
      FoundIsStored(t, AllKeys(e), q);
    }
    AsnStep(t, first, ar);
  }

  /* ---- the key of a top-level domain ---- */

  /** A label of `n` letters and a dot after it, which is the last character. */
  predicate IsDottedLabel(i: string, n: nat) {
    0 < n && |i| == n + 1 && i[n] == '.' && forall k | 0 <= k < n :: IsAlpha(i[k])
  }

  /** No alternative of the grammar takes a label with a trailing dot. */
  lemma DottedLabelFails(l: string)
    requires l != "" && AllIn(l, Alpha)
    ensures ParseEntity(l + ".").Err?
  {
    hide Span, LabelLength, DomainLength, ParseEmail, ParseHashValue, ParseTemplate, ParseAsn, ParseSigner, ParseDomain,
      ParseIpv4, ParseIpv6;
    var i := l + ".";
    assert IsDottedLabel(i, |l|);
    DottedIsNoEmail(i, |l|);
    DottedIsNoTemplate(i, |l|);
    DottedIsNoOther(i, |l|);
    DottedIsNoAsn(i, |l|);
    DottedIsNoDomain(i, |l|);
    DottedIsNoNetwork(i, |l|);
  }

  lemma DottedIsNoEmail(i: string, n: nat)
    requires IsDottedLabel(i, n)
    ensures ParseEmail(i).Err?
  {
    hide LabelLength, DomainLength;
    SpanIs(i, |i|, Local);
  }

  lemma DottedIsNoTemplate(i: string, n: nat)
    requires IsDottedLabel(i, n)
    ensures ParseTemplate(i).Err?
  {
    hide NameLength;
    NameLengthStops(i, n);
    var m := NameLength(i);
    assert i[m..][0] == i[m];
  }

  lemma DottedIsNoOther(i: string, n: nat)
    requires IsDottedLabel(i, n)
    ensures ParseHashValue(i).Err? && ParseSigner(i).Err?
  {
    hide EmailLength, Base64Length;
    assert IsAlpha(i[0]) && "#"[0] == '#' && SECP[9] == ':';
    assert |i| > 9 ==> i[9] != ':';
  }

  lemma DottedIsNoAsn(i: string, n: nat)
    requires IsDottedLabel(i, n)
    ensures ParseAsn(i).Err?
  {
    hide Value;
    if Starts(i, "AS") {
      assert i[1] == 'S' && i[2..][0] == i[2];
      assert Span(i[2..], Digit) == 0;
    }
  }

  lemma DottedIsNoDomain(i: string, n: nat)
    requires IsDottedLabel(i, n)
    ensures ParseDomain(i).Err?
  {
    SpanIs(i, n, Alnum);
    SpanIs(i[n..], 0, LabelTail);
    assert i[n + 1..] == "";
  }

  lemma DottedIsNoNetwork(i: string, n: nat)
    requires IsDottedLabel(i, n)
    ensures ParseIpv4(i).Err? && ParseIpv6(i).Err?
  {
    hide Value, ReadMask, Ipv6Groups, MakeCidr, Span;
    SpanStops(i, 0, Digit);
    LabelIsNotIpv6(i, n);
  }

  /** The key with which a lookup ends, a top-level domain with its dot, finds nothing in
      any valid table: no stored entity can print that way. */
  lemma TopLevelKeyFindsNothing(t: Table<StatementData>, l: string, ar: Arity)
    requires GoodArity(ar) && ValidStatements(t, ar)
    requires l != "" && AllIn(l, Alpha)
    ensures FindReferencing(t, Domain(l + ".")) == []
  {
    hide ReadContents, Increasing, Printable, EntityText, ParseEntity, Faithful;
    var e := Domain(l + ".");
    DottedLabelFails(l);
    forall r | r in t ensures !RefersByIndex(r.data, e) {
      RowReads(r, t, ar);
      var s := ReadContents(r.data.contents).value;
      assert s.entities[0] in s.entities;
      EntityRoundTrip(s.entities[0]);
      TextOfDomain(l + ".");
    }
    assert forall r | r in FindReferencing(t, e) :: r in t && RefersByIndex(r.data, e);
    FirstMember(FindReferencing(t, e));
  }

  lemma FirstMember<T>(s: seq<T>)
    ensures s != [] ==> s[0] in s
  {
  }

  lemma TextOfDomain(s: string)
    ensures EntityText(Domain(s)) == s
  {
  }

  /* ---- lookups, without keys ---- */

  /** The row's first entity prints as this text. */
  ghost predicate PrintsAs(r: Row<StatementData>, text: string) {
    var s := ReadContents(r.data.contents);
    s.Some? && s.value.entities != [] && EntityText(s.value.entities[0]) == text
  }

  function SuffixText(labels: seq<string>, k: nat): string
    requires k < |labels|
  {
    Join(labels[k..], '.') + if k > 0 && k == |labels| - 1 then "." else ""
  }

  /** Whether the row's first entity prints as one of the suffixes. */
  ghost predicate PrintsAsSuffix(r: Row<StatementData>, labels: seq<string>) {
    exists k | 0 <= k < |labels| :: PrintsAs(r, SuffixText(labels, k))
  }

  /** Whether the row's first entity is the domain or one above it; a top-level domain only if
      it is the whole domain. */
  ghost predicate IsAboutSuffix(r: Row<StatementData>, labels: seq<string>) {
    exists k | 0 <= k < |labels| && (k < |labels| - 1 || k == 0) :: RowIsAbout(r, Domain(Join(labels[k..], '.')))
  }

  predicate AreLabels(labels: seq<string>) {
    labels != [] && forall l | l in labels :: IsDomainLabel(l)
  }

  lemma SuffixPrints(r: Row<StatementData>, labels: seq<string>, k: nat)
    requires k < |labels|
    ensures RowRefersTo(r, SuffixKey(labels, k)) <==> PrintsAs(r, SuffixText(labels, k))
  {
    hide ReadContents, Join;
  }

  lemma SuffixesPrint(r: Row<StatementData>, labels: seq<string>)
    ensures (exists k | k in SuffixKeys(labels) :: RowRefersTo(r, k)) <==> PrintsAsSuffix(r, labels)
  {
    hide RowRefersTo, PrintsAs, SuffixKey, SuffixText;
    forall k: nat | k < |labels| ensures RowRefersTo(r, SuffixKey(labels, k)) <==> PrintsAs(r, SuffixText(labels, k)) {
      SuffixPrints(r, labels, k);
    }
    var keys := SuffixKeys(labels);
    if PrintsAsSuffix(r, labels) {
      var k :| 0 <= k < |labels| && PrintsAs(r, SuffixText(labels, k));
      assert keys[k] in keys;
    }
  }

  /** Looking up a mail address finds, first, the rows that print as the address, as its hash,
      or as its domain or one above; and after them those about what the `asn` statements among
      them name. For an address the grammar accepts, the first are the rows whose first entity
      is the address, its hash, its domain, or a domain above that is not top-level. */
  lemma AboutAddress(t: Table<StatementData>, l: string, labels: seq<string>, ar: Arity)
      returns (first: Table<StatementData>, later: Table<StatementData>)
    requires GoodArity(ar) && ValidStatements(t, ar) && '@' !in l && AreLabels(labels)
    ensures var a := l + "@" + Join(labels, '.');
            && FindAbout(t, EMail(a)) == first + later
            && (forall r :: r in first <==> r in t && (PrintsAs(r, a) || PrintsAs(r, "#" + SHA256_BASE64(a)) || PrintsAsSuffix(r, labels)))
            && (forall r :: r in later <==> r in t && exists q, b | q in first && RowNames(q, b) :: RowRefersTo(r, b))
            && (IsEmailText(a) ==> forall r :: r in first <==>
                  r in t && (RowIsAbout(r, EMail(a)) || RowIsAbout(r, HashValue(SHA256_BASE64(a))) || IsAboutSuffix(r, labels)))
  {
    hide FindReferencing, ValidStatements, RowRefersTo, RowNames, RowIsAbout, PrintsAs, PrintsAsSuffix, IsAboutSuffix, SuffixKeys,
      AllKeys, Asns, Join, IsEmailText, IsDomainLabel;
    var a := l + "@" + Join(labels, '.');
    AddressKeysAre(l, labels);
    var keys := AllKeys(EMail(a));
    first := FindAll(t, keys);
    later := FindAll(t, Asns(first));
    AboutOthers(t, EMail(a), ar);
    forall q | q in first ensures q in t { FoundIsStored(t, keys, q); }
    AsnStep(t, first, ar);
    forall r | r in t
      ensures (exists k | k in keys :: RowRefersTo(r, k)) <==>
                PrintsAs(r, a) || PrintsAs(r, "#" + SHA256_BASE64(a)) || PrintsAsSuffix(r, labels)
    {
      KeysPrint(r, a, labels, keys);
    }
    if IsEmailText(a) {
      forall r | r in t
        ensures PrintsAs(r, a) || PrintsAs(r, "#" + SHA256_BASE64(a)) || PrintsAsSuffix(r, labels) <==>
                  RowIsAbout(r, EMail(a)) || RowIsAbout(r, HashValue(SHA256_BASE64(a))) || IsAboutSuffix(r, labels)
      {
        AddressIsDomain(l, labels);
        PrintedIsAbout(t, r, EMail(a), ar);
        PrintedIsAbout(t, r, HashValue(SHA256_BASE64(a)), ar);
        SuffixIsAbout(t, r, labels, ar);
      }
    }
  }

  lemma KeysPrint(r: Row<StatementData>, a: string, labels: seq<string>, keys: seq<Entity>)
    requires keys == [EMail(a), HashValue(SHA256_BASE64(a))] + SuffixKeys(labels)
    ensures (exists k | k in keys :: RowRefersTo(r, k)) <==>
              PrintsAs(r, a) || PrintsAs(r, "#" + SHA256_BASE64(a)) || PrintsAsSuffix(r, labels)
  {
    hide ReadContents, SuffixKeys, PrintsAsSuffix, RefersTo;
    SuffixesPrint(r, labels);
    assert RowRefersTo(r, EMail(a)) <==> PrintsAs(r, a) by { PrintsOther(r, EMail(a)); }
    assert RowRefersTo(r, HashValue(SHA256_BASE64(a))) <==> PrintsAs(r, "#" + SHA256_BASE64(a)) by {
      PrintsOther(r, HashValue(SHA256_BASE64(a)));
    }
    hide RowRefersTo, PrintsAs;
    assert forall k :: k in keys <==> k == EMail(a) || k == HashValue(SHA256_BASE64(a)) || k in SuffixKeys(labels);
  }

  lemma PrintsOther(r: Row<StatementData>, e: Entity)
    requires !IsNetwork(e)
    ensures RowRefersTo(r, e) <==> PrintsAs(r, EntityText(e))
  {
    hide ReadContents, EntityText;
  }

  lemma PrintedIsAbout(t: Table<StatementData>, r: Row<StatementData>, e: Entity, ar: Arity)
    requires GoodArity(ar) && ValidStatements(t, ar) && r in t && Printable(e) && !IsNetwork(e)
    ensures PrintsAs(r, EntityText(e)) <==> RowIsAbout(r, e)
  {
    hide ValidStatements, RowRefersTo, RowIsAbout, PrintsAs, Printable, EntityText;
    ReferencingMeans(t, e, ar);
    PrintsOther(r, e);
  }

  /* ---- suffixes of domains the grammar accepts ---- */

  lemma AddressIsDomain(l: string, labels: seq<string>)
    requires '@' !in l && IsEmailText(l + "@" + Join(labels, '.'))
    ensures IsDomainText(Join(labels, '.'))
  {
    hide IsDomainText;
    var d := Join(labels, '.');
    var a := l + "@" + d;
    var n := Span(a, Local);
    assert a[|l|] == '@';
    assert forall k | 0 <= k < |l| :: a[k] in l;
    assert a[n + 1..] == d;
  }

  /** Every suffix of a domain is a domain, and the last label is of letters. */
  lemma {:induction false} DomainSuffix(labels: seq<string>, k: nat)
    requires AreLabels(labels) && k < |labels| && IsDomainText(Join(labels, '.'))
    ensures IsDomainText(Join(labels[k..], '.')) && AllIn(labels[|labels| - 1], Alpha)
  {
    hide LabelLength, AllIn, IsDomainLabel;
    FirstLabel(labels);
    if |labels| == 1 {
      assert labels[k..] == labels;
    } else {
      var above := Join(labels[1..], '.');
      assert Join(labels, '.')[|labels[0]| + 1..] == above;
      assert IsDomainText(above);
      hide IsDomainText, Join;
      DomainSuffix(labels[1..], if k == 0 then 0 else k - 1);
      assert k > 0 ==> labels[1..][k - 1..] == labels[k..];
      assert labels[0..] == labels;
    }
  }

  lemma FirstLabel(labels: seq<string>)
    requires AreLabels(labels) && IsDomainText(Join(labels, '.'))
    ensures LabelLength(Join(labels, '.')) == |labels[0]|
  {
    hide LabelLength, AllIn;
    var s := Join(labels, '.');
    assert IsDomainLabel(labels[0]);
    LabelHasNoDot(s);
    assert forall j | 0 <= j < |labels[0]| :: s[j] == labels[0][j] && s[j] in labels[0];
    if |labels| > 1 { assert s[|labels[0]|] == '.'; }
  }

  lemma LabelHasNoDot(s: string)
    ensures forall k | 0 <= k < LabelLength(s) :: s[k] != '.'
    ensures AllIn(s, Alpha) ==> '.' !in s
  {
    var a := Span(s, Alnum);
    var n := LabelLength(s);
    forall k | 0 <= k < n ensures s[k] != '.' {
      if k < a { assert In(s[k], Alnum); } else { assert s[a..][k - a] == s[k] && In(s[a..][k - a], LabelTail); }
    }
  }

  /** What does not read as an entity is no stored row's first. */
  lemma UnreadIsNoFirst(t: Table<StatementData>, r: Row<StatementData>, text: string, ar: Arity)
    requires GoodArity(ar) && ValidStatements(t, ar) && r in t && !EntityFromText(text).Ok?
    ensures !PrintsAs(r, text)
  {
    hide ReadContents, Increasing, Printable, EntityText, EntityFromText, Faithful;
    RowReads(r, t, ar);
    var s := ReadContents(r.data.contents).value;
    assert s.entities[0] in s.entities;
    EntityRoundTrip(s.entities[0]);
  }

  lemma UnprintableIsNoFirst(t: Table<StatementData>, r: Row<StatementData>, e: Entity, ar: Arity)
    requires GoodArity(ar) && ValidStatements(t, ar) && r in t && !Printable(e)
    ensures !RowIsAbout(r, e)
  {
    hide ReadContents, Increasing, Printable, Faithful;
    RowReads(r, t, ar);
    var s := ReadContents(r.data.contents).value;
    assert s.entities[0] in s.entities;
  }

  /** A domain that starts like an AS number reads as that AS, with text left over. */
  lemma AsLikeIsUnread(s: string)
    requires IsDomainText(s) && StartsLikeAs(s)
    ensures !EntityFromText(s).Ok?
  {
    hide IsDomainText, EmailLength, ParseHashValue, ParseTemplate, ParseSigner, ParseDomain, ParseIpv4, ParseIpv6, Value;
    DomainIsNothingElse(s, "");
    assert s + "" == s;
    DomainEndsInLetter(s);
    var n := Span(s[2..], Digit);
    assert s[2..][|s| - 3] == s[|s| - 1];
  }

  lemma SuffixIsAbout(t: Table<StatementData>, r: Row<StatementData>, labels: seq<string>, ar: Arity)
    requires GoodArity(ar) && ValidStatements(t, ar) && r in t && AreLabels(labels) && IsDomainText(Join(labels, '.'))
    ensures PrintsAsSuffix(r, labels) <==> IsAboutSuffix(r, labels)
  {
    hide ValidStatements, PrintsAs, RowIsAbout, Join, IsDomainText, AreLabels, SuffixText;
    forall k: nat | k < |labels|
      ensures PrintsAs(r, SuffixText(labels, k)) <==> (k < |labels| - 1 || k == 0) && RowIsAbout(r, Domain(Join(labels[k..], '.')))
    {
      OneSuffixIsAbout(t, r, labels, k, ar);
    }
  }

  lemma OneSuffixIsAbout(t: Table<StatementData>, r: Row<StatementData>, labels: seq<string>, k: nat, ar: Arity)
    requires GoodArity(ar) && ValidStatements(t, ar) && r in t && AreLabels(labels) && IsDomainText(Join(labels, '.'))
    requires k < |labels|
    ensures PrintsAs(r, SuffixText(labels, k)) <==> (k < |labels| - 1 || k == 0) && RowIsAbout(r, Domain(Join(labels[k..], '.')))
  {
    hide ValidStatements, PrintsAs, RowIsAbout, Join, IsDomainText, AreLabels, AllIn, SuffixText, EntityFromText;
    DomainSuffix(labels, k);
    SuffixTextIs(labels, k);
    if k < |labels| - 1 || k == 0 {
      DomainTextIsAbout(t, r, Join(labels[k..], '.'), ar);
    } else {
      DottedLabelFails(labels[k]);
      assert !EntityFromText(labels[k] + ".").Ok? by { FailureStays(labels[k] + "."); }
      UnreadIsNoFirst(t, r, SuffixText(labels, k), ar);
    }
  }

  lemma FailureStays(text: string)
    requires ParseEntity(text).Err?
    ensures !EntityFromText(text).Ok?
  {
    hide ParseEntity;
  }

  lemma SuffixTextIs(labels: seq<string>, k: nat)
    requires AreLabels(labels) && k < |labels|
    ensures labels[k] != ""
    ensures SuffixText(labels, k) == if k < |labels| - 1 || k == 0 then Join(labels[k..], '.') else labels[k] + "."
  {
    assert labels[k] in labels && IsDomainLabel(labels[k]);
    var s := Join(labels[k..], '.');
    assert s + "" == s;
    if k == |labels| - 1 { assert labels[k..] == [labels[k]]; }
  }

  lemma DomainTextIsAbout(t: Table<StatementData>, r: Row<StatementData>, s: string, ar: Arity)
    requires GoodArity(ar) && ValidStatements(t, ar) && r in t && IsDomainText(s)
    ensures PrintsAs(r, s) <==> RowIsAbout(r, Domain(s))
  {
    hide ValidStatements, PrintsAs, RowIsAbout, IsDomainText, StartsLikeAs;
    if StartsLikeAs(s) {
      AsLikeIsUnread(s);
      UnreadIsNoFirst(t, r, s, ar);
      UnprintableIsNoFirst(t, r, Domain(s), ar);
    } else {
      PrintedIsAbout(t, r, Domain(s), ar);
    }
  }

  /** Looking up a domain finds, first, the rows that print as it or one above, and after them
      those about what the `asn` statements among them name. */
  lemma AboutDomain(t: Table<StatementData>, labels: seq<string>, ar: Arity)
      returns (first: Table<StatementData>, later: Table<StatementData>)
    requires GoodArity(ar) && ValidStatements(t, ar) && AreLabels(labels)
    ensures var d := Join(labels, '.');
            && FindAbout(t, Domain(d)) == first + later
            && (forall r :: r in first <==> r in t && PrintsAsSuffix(r, labels))
            && (forall r :: r in later <==> r in t && exists q, b | q in first && RowNames(q, b) :: RowRefersTo(r, b))
            && (IsDomainText(d) ==> forall r :: r in first <==> r in t && IsAboutSuffix(r, labels))
  {
    hide FindReferencing, ValidStatements, RowRefersTo, RowNames, PrintsAsSuffix, IsAboutSuffix, SuffixKeys,
      AllKeys, Asns, Join, IsDomainText, IsDomainLabel;
    var e := Domain(Join(labels, '.'));
    DomainKeysAre(labels);
    first := FindAll(t, AllKeys(e));
    later := FindAll(t, Asns(first));
    AboutOthers(t, e, ar);
    forall q | q in first ensures q in t { FoundIsStored(t, AllKeys(e), q); }
    AsnStep(t, first, ar);
    forall r | r in t
      ensures (exists k | k in AllKeys(e) :: RowRefersTo(r, k)) <==> PrintsAsSuffix(r, labels)
      ensures IsDomainText(e.domain) ==> (PrintsAsSuffix(r, labels) <==> IsAboutSuffix(r, labels))
    {
      SuffixesPrint(r, labels);
      if IsDomainText(e.domain) { SuffixIsAbout(t, r, labels, ar); }
    }
  }

  /** Looking up anything else finds, first, the rows that refer to it, and after them those
      about what the `asn` statements among them name. */
  lemma AboutOneKey(t: Table<StatementData>, e: Entity, ar: Arity)
      returns (first: Table<StatementData>, later: Table<StatementData>)
    requires GoodArity(ar) && ValidStatements(t, ar) && !e.EMail? && !e.Domain?
    ensures FindAbout(t, e) == first + later
    ensures forall r :: r in first <==> r in t && RowRefersTo(r, e)
    ensures forall r :: r in later <==> r in t && exists q, b | q in first && RowNames(q, b) :: RowRefersTo(r, b)
  {
    hide FindReferencing, ValidStatements, RowRefersTo, RowNames, Asns;
    first := FindAll(t, AllKeys(e));
    later := FindAll(t, Asns(first));
    AboutOthers(t, e, ar);
    forall q | q in first ensures q in t { FoundIsStored(t, AllKeys(e), q); }
    AsnStep(t, first, ar);
    assert AllKeys(e) == [e];
  }
}
