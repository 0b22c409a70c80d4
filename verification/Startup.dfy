/** Starting on a database: the root templates, the node's own key, its own opinions, and
    the two caches. */
module Startup {
  import opened Entities
  import opened Options
  import opened Grammar
  import opened RoundTrip
  import opened Opinions
  import opened Tables
  import opened Store
  import opened StoreInvariants
  import opened Views
  import opened Merging

  const ROOT_TEMPLATE := Template("template", [[TemplateType]])

  function TemplateStatement(t: Template): Statement {
    Statement("template", [TemplateEntity(t)])
  }

  /** The signature of a text under a key, as some fixed but arbitrary function. */
  const SIGN: (KeyPair, string) -> Base64Text

  datatype OwnKey = OwnKey(signer: Entity, key: KeyPair)

  function SignableText(d: UnsignedOpinion, statementText: string): string {
    UnsignedText(d) + statementText
  }

  function SignUsing(d: UnsignedOpinion, statementText: string, key: KeyPair): Opinion {
    Opinion(d, key.public, SIGN(key, SignableText(d, statementText)))
  }

  function DefaultOpinion(today: U32): UnsignedOpinion {
    UnsignedOpinion(today, 30, 0, 3, "")
  }

  /** Sign a statement with default values and store both. */
  function SignDefault(db: Db, s: Statement, key: KeyPair, today: U32): (Db, Outcome<Persisted<Opinion>>) {
    var o := SignUsing(DefaultOpinion(today), StatementText(s), key);
    var (db1, r) := PersistStatement(db, s);
    match r
    case Done(p) => PersistOpinion(db1, o, p.id)
    case NoTemplate => (db1, NoTemplate)
    case Panicked => (db1, Panicked)
  }

  /** Take the stored key, with the signer its row names, or store a new one. */
  function EnsureOwnKey(db: Db, generated: KeyPair): (Db, Outcome<OwnKey>) {
    if db.privateKeys != [] then
      var p := db.privateKeys[0];
      match ById(db.statements, p.signerId)
      case None => (db, Panicked)
      case Some(row) =>
        match ReadContents(row.contents)
        case None => (db, Panicked)
        case Some(s) => if s.entities == [] then (db, Panicked) else (db, Done(OwnKey(s.entities[0], p.key)))
    else
      var (db1, r) := PersistStatement(db, SignerStatement(generated.public));
      match r
      case Done(p) =>
        (db1.(privateKeys := [PrivateKey(p.id, generated)]), Done(OwnKey(Signer(generated.public), generated)))
      case NoTemplate => (db1, NoTemplate)
      case Panicked => (db1, Panicked)
  }

  function RowTemplate(c: Contents): Option<Template> {
    match TemplateFromText(c.e1)
    case Ok(_, TemplateEntity(template)) => if c.name == "template" then Some(template) else None
    case _ => None
  }

  function RowSigner(c: Contents): Option<PublicKey> {
    if c.name == "signer" then KeyFromText(c.e1) else None
  }

  /** Template rows whose text parses, under their ids. */
  function ReadTemplates(t: Table<StatementData>, known: map<nat, Template>): map<nat, Template>
    decreases |t|
  {
    if t == [] then known
    else
      var template := RowTemplate(t[0].data.contents);
      ReadTemplates(t[1..], if template.Some? then known[t[0].id := template.value] else known)
  }

  function ReadSigners(t: Table<StatementData>, known: map<nat, PublicKey>): map<nat, PublicKey>
    decreases |t|
  {
    if t == [] then known
    else
      var key := RowSigner(t[0].data.contents);
      ReadSigners(t[1..], if key.Some? then known[t[0].id := key.value] else known)
  }

  function ReadCaches(db: Db): Db {
    db.(templates := ReadTemplates(db.statements, db.templates), signers := ReadSigners(db.statements, db.signers))
  }

  /** The same failure with another result type. */
  function Failed<A, B>(r: Outcome<A>): Outcome<B> {
    if r.NoTemplate? then NoTemplate else Panicked
  }

  /** The two root templates, the own key, own opinions on both templates, then the caches. */
  function Initialize(db: Db, generated: KeyPair, today: U32): (Db, Outcome<OwnKey>) {
    var (db1, r1) := PersistStatement(db, TemplateStatement(ROOT_TEMPLATE));
    if !r1.Done? then (db1, Failed(r1))
    else
      var (db2, r2) := PersistStatement(db1, TemplateStatement(SIGNER_TEMPLATE));
      if !r2.Done? then (db2, Failed(r2)) else SignRoots(db2, generated, today)
  }

  function SignRoots(db: Db, generated: KeyPair, today: U32): (Db, Outcome<OwnKey>) {
    var (db1, own) := EnsureOwnKey(db, generated);
    if !own.Done? then (db1, own)
    else
      var (db2, r2) := SignDefault(db1, TemplateStatement(ROOT_TEMPLATE), own.value.key, today);
      if !r2.Done? then (db2, Failed(r2))
      else
        var (db3, r3) := SignDefault(db2, TemplateStatement(SIGNER_TEMPLATE), own.value.key, today);
        if !r3.Done? then (db3, Failed(r3)) else (ReadCaches(db3), own)
  }

  /* ---- the caches after reading ---- */

  lemma NoTemplateWithoutParenthesis(i: string)
    requires '(' !in i
    ensures ParseTemplate(i).Err?
  {
    hide NameLength, ParseTypes;
    var n := NameLength(i);
    assert i[n..] != "" ==> i[n..][0] in i;
  }

  /** Reading a template row gives what the statement in it says. */
  lemma TemplateRowReads(d: StatementData, ar: Arity)
    requires GoodArity(ar) && Faithful(d, ar)
    ensures RowTemplate(d.contents) == TemplateOf(d)
    ensures TemplateOf(d).Some? ==> TemplateConforms(TemplateOf(d).value, ar)
  {
    hide DataOf, ReadContents, ParseTemplate, TemplateText, Printable;
    var s: Statement :| |s.entities| == ar(s.name) > 0 && Acceptable(s, ar) && d == DataOf(s);
    RowMeans(s, ar);
    ContentsOfData(s);
    var e := s.entities[0];
    assert e in s.entities;
    if s.name == "template" {
      if e.TemplateEntity? {
        TemplateRoundTrip(e.template);
      } else {
        PrintableIsParseable(s.entities);
        EntityIsPlain(e);
        NoTemplateWithoutParenthesis(EntityText(e));
      }
    }
  }

  lemma SignerRowReads(d: StatementData, ar: Arity)
    requires GoodArity(ar) && Faithful(d, ar) && SignerOf(d).Some?
    ensures RowSigner(d.contents) == SignerOf(d)
  {
    hide DataOf, ReadContents, KeyFromText, KeyText;
    var s: Statement :| |s.entities| == ar(s.name) > 0 && Acceptable(s, ar) && d == DataOf(s);
    RowMeans(s, ar);
    ContentsOfData(s);
    assert s.entities[0] in s.entities;
    KeyReads(s.entities[0].key);
  }

  lemma {:induction false} TemplatesAreRead(t: Table<StatementData>, known: map<nat, Template>, ar: Arity)
    requires GoodArity(ar) && Increasing(t) && forall r | r in t :: Faithful(r.data, ar)
    requires forall id | id in known :: TemplateConforms(known[id], ar)
    ensures var m := ReadTemplates(t, known);
            && (forall id | id in m :: TemplateConforms(m[id], ar))
            && (forall r | r in t && TemplateOf(r.data).Some? :: r.id in m && m[r.id] == TemplateOf(r.data).value)
            && (forall id | id in known && (forall r | r in t :: r.id != id) :: id in m && m[id] == known[id])
    decreases |t|
  {
    hide TemplateOf, Faithful, RowTemplate;
    if t != [] {
      assert t[0] in t;
      TemplateRowReads(t[0].data, ar);
      var template := RowTemplate(t[0].data.contents);
      var next := if template.Some? then known[t[0].id := template.value] else known;
      TemplatesAreRead(t[1..], next, ar);
      var m := ReadTemplates(t, known);
      assert m == ReadTemplates(t[1..], next);
      assert TemplateOf(t[0].data).Some? ==> t[0].id in next;
      forall id | id in m ensures TemplateConforms(m[id], ar) {
        assert id in ReadTemplates(t[1..], next);
      }
      assert forall r :: r in t <==> r == t[0] || r in t[1..];
    }
  }

  lemma {:induction false} SignersAreRead(t: Table<StatementData>, known: map<nat, PublicKey>, ar: Arity)
    requires GoodArity(ar) && Increasing(t) && forall r | r in t :: Faithful(r.data, ar)
    ensures var m := ReadSigners(t, known);
            && (forall r | r in t && SignerOf(r.data).Some? :: r.id in m && m[r.id] == SignerOf(r.data).value)
            && (forall id | id in known && (forall r | r in t :: r.id != id) :: id in m && m[id] == known[id])
    decreases |t|
  {
    hide SignerOf, Faithful, RowSigner;
    if t != [] {
      assert t[0] in t;
      if SignerOf(t[0].data).Some? { SignerRowReads(t[0].data, ar); }
      var key := RowSigner(t[0].data.contents);
      var next := if key.Some? then known[t[0].id := key.value] else known;
      SignersAreRead(t[1..], next, ar);
      var m := ReadSigners(t, known);
      assert m == ReadSigners(t[1..], next);
      assert SignerOf(t[0].data).Some? ==> t[0].id in next;
      assert forall r :: r in t <==> r == t[0] || r in t[1..];
      hide ReadSigners;
      forall id | id in known && (forall r | r in t :: r.id != id) ensures id in m && m[id] == known[id] {
        assert id in next && next[id] == known[id];
      }
    }
  }

  /** After reading, the caches cover the tables, whatever they held before. */
  lemma CachesCover(db: Db, ar: Arity)
    requires GoodArity(ar) && ValidTables(db, ar)
    ensures Valid(ReadCaches(db), ar)
    ensures View(ReadCaches(db)) == View(db)
  {
    hide TemplateOf, SignerOf, Faithful, MapOf, Increasing, KeyIn, ReadTemplates, ReadSigners;
    TemplatesAreRead(db.statements, db.templates, ar);
    SignersAreRead(db.statements, db.signers, ar);
    var db' := ReadCaches(db);
    hide TemplateConforms;
    assert db'.templates == ReadTemplates(db.statements, db.templates);
    TablesIgnoreCaches(db, db', ar);
    forall r | r in db'.statements ensures Cached(db', r) {
    }
  }

  lemma TablesIgnoreCaches(db: Db, db': Db, ar: Arity)
    requires ValidTables(db, ar) && CacheConforms(db', ar)
    requires db' == db.(templates := db'.templates, signers := db'.signers)
    ensures ValidTables(db', ar) && View(db') == View(db)
  {
    hide SignerOf, Faithful, MapOf, Increasing, ValidStatements, ById;
  }
}
