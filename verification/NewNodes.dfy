/** Two nodes that start on empty databases: what they hold, and that they meet every
    assumption of the convergence proof. */
module NewNodes {
  import opened Entities
  import opened Options
  import opened RoundTrip
  import opened Opinions
  import opened Tables
  import opened Store
  import opened StoreInvariants
  import opened Registers
  import opened Views
  import opened Merging
  import opened Refusals
  import opened Cleaning
  import opened Startup
  import opened StartupProofs
  import opened TemplateReplies
  import opened SummaryMeaning
  import opened Protocol
  import opened Convergence
  import opened Node
  import opened Sessions
  import opened Lifetime

  /** What signing a root template with this opinion stores. */
  function RootEntry(t: Template, key: KeyPair, d: UnsignedOpinion): Entry {
    var o := SignUsing(d, StatementText(TemplateStatement(t)), key);
    Entry(Key(ContentsOf(TemplateStatement(t)), o.signer), StoredOf(o.data, o.signature))
  }

  /** Both root templates signed with this opinion. */
  function RootView(key: KeyPair, d: UnsignedOpinion): Register {
    var (root, signer) := (RootEntry(ROOT_TEMPLATE, key, d), RootEntry(SIGNER_TEMPLATE, key, d));
    map[root.key := root.stored, signer.key := signer.stored]
  }

  /** The root templates print differently, so the view has two keys. */
  lemma RootsDiffer()
    ensures ContentsOf(TemplateStatement(ROOT_TEMPLATE)) != ContentsOf(TemplateStatement(SIGNER_TEMPLATE))
  {
    hide ContentsOf;
    if ContentsOf(TemplateStatement(ROOT_TEMPLATE)) == ContentsOf(TemplateStatement(SIGNER_TEMPLATE)) {
      RootIsPrintable(ROOT_TEMPLATE);
      RootContents(TemplateStatement(ROOT_TEMPLATE), SIGNER_TEMPLATE);
    }
  }

  lemma RootViewIs(key: KeyPair, d: UnsignedOpinion)
    ensures var v := RootView(key, d);
            forall k :: k in v <==> k == RootEntry(ROOT_TEMPLATE, key, d).key || k == RootEntry(SIGNER_TEMPLATE, key, d).key
    ensures var v := RootView(key, d);
            forall t | IsRoot(t) :: var e := RootEntry(t, key, d); e.key in v && v[e.key] == e.stored
    ensures forall k | k in RootView(key, d) ::
              && k.signer == key.public && RootView(key, d)[k].date == d.date
              && (k.statement == ContentsOf(TemplateStatement(ROOT_TEMPLATE))
                  || k.statement == ContentsOf(TemplateStatement(SIGNER_TEMPLATE)))
  {
    hide ContentsOf, StatementText, SignableText;
    RootsDiffer();
  }

  lemma EmptyView()
    ensures View(EMPTY) == map[]
  {
  }

  lemma FirstPuts(key: KeyPair, today: U32)
    ensures Put(Put(map[], OwnEntry(ROOT_TEMPLATE, key, today)), OwnEntry(SIGNER_TEMPLATE, key, today))
            == RootView(key, DefaultOpinion(today))
  {
    hide ContentsOf, StatementText, SignableText;
    RootsDiffer();
  }

  ghost predicate HoldsTemplate(db: Db, e: Entity) {
    exists r | r in db.statements :: IsTemplateRow(r, e)
  }

  predicate IsRootEntity(e: Entity) {
    e.TemplateEntity? && IsRoot(e.template)
  }

  /** The only templates stored are the two root ones. */
  ghost predicate RootsOnly(db: Db) {
    forall e :: HoldsTemplate(db, e) <==> IsRootEntity(e)
  }

  /** A new node holds its own opinions on the two root templates, its own key is the
      generated one, and no other template is stored. */
  lemma NewNodeView(generated: KeyPair, today: U32, ar: Arity)
    requires GoodArity(ar) && Printable(Signer(generated.public))
    ensures var l := Begin(EMPTY, generated, today);
            && l.Some? && Healthy(l.value, ar) && l.value.ownInfos == map[] && l.value.own.key == generated
            && View(l.value.db) == RootView(generated, DefaultOpinion(today))
            && RootsOnly(l.value.db)
  {
    hide View, ValidTables, Healthy, CacheCovers, Initialize, Cleanup, Complete, HasTemplate, KnowsSigners, RootView,
      Expired, Printable, Referenced, RootsOnly, OwnEntry;
    EmptyIsValid(ar);
    EmptyView();
    BeginIsHealthy(EMPTY, generated, today, ar);
    InitializationCompletes(EMPTY, generated, today, ar);
    var db := Initialize(EMPTY, generated, today).0;
    CleanupKeeps(db, today, ar);
    FirstPuts(generated, today);
    NothingExpires(generated, today);
    CleanupKeepsComplete(db, today, ar);
    OnlyRootsAreLeft(Cleanup(db, today), generated, today, ar) by {
      assert forall r | r in Cleanup(db, today).statements :: Referenced(Cleanup(db, today), r.id);
    }
  }

  lemma NothingExpires(key: KeyPair, today: U32)
    ensures Unexpired(RootView(key, DefaultOpinion(today)), today) == RootView(key, DefaultOpinion(today))
  {
    var v := RootView(key, DefaultOpinion(today));
    hide RootView, RootEntry, ContentsOf;
    RootViewIs(key, DefaultOpinion(today));
  }

  /** Where every statement is referenced, a template is only there for an opinion on it. */
  lemma OnlyRootsAreLeft(db: Db, key: KeyPair, today: U32, ar: Arity)
    requires GoodArity(ar) && ValidTables(db, ar) && Complete(db, today)
    requires View(db) == RootView(key, DefaultOpinion(today))
    requires forall r | r in db.statements :: Referenced(db, r.id)
    ensures RootsOnly(db)
  {
    hide View, ValidTables, RootView, RootEntry, ReadContents, ContentsOf, Referenced, OwnEntry, Takes;
    forall e ensures HoldsTemplate(db, e) <==> IsRootEntity(e) {
      RootReads(ROOT_TEMPLATE);
      RootReads(SIGNER_TEMPLATE);
      if r :| r in db.statements && IsTemplateRow(r, e) {
        TemplateRowIsRoot(db, r, e, key, today, ar);
      }
      if e == TemplateEntity(ROOT_TEMPLATE) {
        var r :| r in db.statements && r.data.contents == ContentsOf(TemplateStatement(ROOT_TEMPLATE));
        assert IsTemplateRow(r, e);
      }
      if e == TemplateEntity(SIGNER_TEMPLATE) {
        var r :| r in db.statements && r.data.contents == ContentsOf(TemplateStatement(SIGNER_TEMPLATE));
        assert IsTemplateRow(r, e);
      }
    }
  }

  lemma RootReads(t: Template)
    requires IsRoot(t)
    ensures ReadContents(ContentsOf(TemplateStatement(t))) == Some(TemplateStatement(t))
  {
    hide ReadContents, EntityText;
    RootIsPrintable(t);
    RowReadsBack(TemplateStatement(t));
  }

  lemma TemplateRowIsRoot(db: Db, r: Row<StatementData>, e: Entity, key: KeyPair, today: U32, ar: Arity)
    requires GoodArity(ar) && ValidTables(db, ar) && View(db) == RootView(key, DefaultOpinion(today))
    requires r in db.statements && IsTemplateRow(r, e) && Referenced(db, r.id)
    ensures IsRootEntity(e)
  {
    hide View, ValidTables, RootView, RootEntry, ReadContents, ContentsOf, Complete;
    var c := r.data.contents;
    assert c.name == "template" by { ReadName(c); }
    TemplateIsUnderOpinion(db, r, ar);
    var k :| k in View(db) && k.statement == c;
    RootViewIs(key, DefaultOpinion(today));
    RootReads(ROOT_TEMPLATE);
    RootReads(SIGNER_TEMPLATE);
  }

  lemma ReadName(c: Contents)
    ensures ReadContents(c).Some? ==> ReadContents(c).value.name == c.name
  {
    hide ReadColumns;
  }

  /** A referenced row that is no signer's is the statement of some opinion. */
  lemma TemplateIsUnderOpinion(db: Db, r: Row<StatementData>, ar: Arity)
    requires GoodArity(ar) && ValidTables(db, ar) && r in db.statements
    requires r.data.contents.name == "template" && Referenced(db, r.id)
    ensures exists k | k in View(db) :: k.statement == r.data.contents
  {
    hide MapOf, DistinctKeys, KeyIn, ById, Increasing, Faithful, CacheConforms, ReadContents;
    KeysAreDistinct(db, ar);
    MapRepresents(db.opinions, Naming(db.statements));
    UniqueIds(db.statements);
    NoSignerHasThisName(r.data);
    assert ById(db.statements, r.id) == Some(r.data);
    var o :| o in db.opinions && o.data.statementId == r.id;
    KeyOfPair(db, o.data);
    assert KeyIn(db.statements, o.data) in View(db);
  }

  lemma NoSignerHasThisName(d: StatementData)
    requires d.contents.name == "template"
    ensures SignerOf(d).None?
  {
    ReadName(d.contents);
    hide ReadContents;
  }

  /** Whatever prints as a root template's statement is one. */
  lemma RootContents(s: Statement, t: Template)
    requires IsRoot(t) && s.entities != [] && AllPrintable(s.entities)
    requires ContentsOf(s) == ContentsOf(TemplateStatement(t))
    ensures s == TemplateStatement(t)
  {
    hide ReadContents, EntityText, Printable;
    var r := TemplateStatement(t);
    assert AllPrintable(r.entities) by { RootIsPrintable(t); }
    RowReadsBack(s);
    RowReadsBack(r);
  }

  lemma RootIsPrintable(t: Template)
    requires IsRoot(t)
    ensures Printable(TemplateEntity(t)) && AllPrintable(TemplateStatement(t).entities)
  {
  }

  lemma RootsAreUnderstood(db: Db, keys: set<Key>)
    requires forall k | k in keys ::
               k.statement == ContentsOf(TemplateStatement(ROOT_TEMPLATE))
               || k.statement == ContentsOf(TemplateStatement(SIGNER_TEMPLATE))
    ensures Understands(db, keys)
  {
    hide ContentsOf, Printable;
    forall k, s: Statement | k in keys && s.entities != [] && AllPrintable(s.entities) && ContentsOf(s) == k.statement
      ensures TemplateStored(db, s)
    {
      if k.statement == ContentsOf(TemplateStatement(ROOT_TEMPLATE)) {
        RootContents(s, ROOT_TEMPLATE);
      } else {
        RootContents(s, SIGNER_TEMPLATE);
      }
    }
  }

  /* ---- the template cache of a new node ---- */

  lemma {:induction false} ReadTemplatesFrom(t: Table<StatementData>, known: map<nat, Template>)
    ensures var m := ReadTemplates(t, known);
            forall id | id in m ::
              || (exists r | r in t :: r.id == id && RowTemplate(r.data.contents) == Some(m[id]))
              || (id in known && m[id] == known[id])
    decreases |t|
  {
    hide RowTemplate;
    if t != [] {
      var template := RowTemplate(t[0].data.contents);
      var next := if template.Some? then known[t[0].id := template.value] else known;
      ReadTemplatesFrom(t[1..], next);
      assert forall r :: r in t <==> r == t[0] || r in t[1..];
    }
  }

  lemma ReadCachesAreExact(db: Db, ar: Arity)
    requires GoodArity(ar) && ValidTables(db, ar) && CacheIsExact(db)
    ensures CacheIsExact(ReadCaches(db))
  {
    hide ValidOpinions, ValidPrivateKeys, CacheConforms, RowTemplate, TemplateOf, ReadTemplates, ReadSigners, Faithful,
      Increasing;
    ReadTemplatesFrom(db.statements, db.templates);
    var m := ReadTemplates(db.statements, db.templates);
    forall id | id in m
      ensures exists r | r in db.statements :: r.id == id && TemplateOf(r.data) == Some(m[id])
    {
      if r :| r in db.statements && r.id == id && RowTemplate(r.data.contents) == Some(m[id]) {
        Startup.TemplateRowReads(r.data, ar);
      }
    }
  }

  lemma SignDefaultIsExact(db: Db, t: Template, key: KeyPair, today: U32, ar: Arity)
    requires GoodArity(ar) && ValidTables(db, ar) && IsRoot(t) && Printable(Signer(key.public)) && CacheIsExact(db)
    ensures CacheIsExact(SignDefault(db, TemplateStatement(t), key, today).0)
  {
    hide ValidTables, CacheIsExact, PersistStatement, PersistOpinion, StatementText, Acceptable, Printable, HasTemplate;
    RootIsAcceptable(t, ar);
    PersistFindsOrInserts(db, TemplateStatement(t), ar);
    PersistKeepsExact(db, TemplateStatement(t), ar);
    var (db1, r) := PersistStatement(db, TemplateStatement(t));
    if r.Done? {
      OpinionKeepsExact(db1, SignUsing(DefaultOpinion(today), StatementText(TemplateStatement(t)), key), r.value.id, ar);
    }
  }

  lemma EnsureOwnKeyIsExact(db: Db, generated: KeyPair, ar: Arity)
    requires GoodArity(ar) && ValidTables(db, ar) && Printable(Signer(generated.public)) && CacheIsExact(db)
    ensures CacheIsExact(EnsureOwnKey(db, generated).0)
  {
    hide ValidTables, PersistStatement, Acceptable, Printable, ReadContents, TemplateOf;
    assert AcceptableOpinion(SignUsing(DefaultOpinion(0), "", generated));
    SignerIsAcceptable(SignUsing(DefaultOpinion(0), "", generated), ar);
    PersistKeepsExact(db, SignerStatement(generated.public), ar);
  }

  /** Initialisation with empty caches makes the template cache exact. */
  lemma InitializeIsExact(db: Db, generated: KeyPair, today: U32, ar: Arity)
    requires GoodArity(ar) && ValidTables(db, ar) && Printable(Signer(generated.public)) && CacheIsExact(db)
    ensures CacheIsExact(Initialize(db, generated, today).0)
  {
    hide View, DataOf, ValidTables, TemplateOf, Cached, PersistStatement, SignDefault, EnsureOwnKey, OwnEntry, ReadCaches,
      CacheIsExact, ContentsOf, Printable, RemembersSigners, HasTemplate, Acceptable;
    RootIsAcceptable(ROOT_TEMPLATE, ar);
    RootIsAcceptable(SIGNER_TEMPLATE, ar);
    PersistRoot(db, ROOT_TEMPLATE, ar);
    PersistKeepsExact(db, TemplateStatement(ROOT_TEMPLATE), ar);
    var (db1, r1) := PersistStatement(db, TemplateStatement(ROOT_TEMPLATE));
    PersistRoot(db1, SIGNER_TEMPLATE, ar);
    PersistKeepsExact(db1, TemplateStatement(SIGNER_TEMPLATE), ar);
    var (db2, r2) := PersistStatement(db1, TemplateStatement(SIGNER_TEMPLATE));
    OwnKeyEnsured(db2, generated, ar);
    EnsureOwnKeyIsExact(db2, generated, ar);
    var (db3, own) := EnsureOwnKey(db2, generated);
    var key := own.value.key;
    SignRoot(db3, ROOT_TEMPLATE, key, today, ar);
    SignDefaultIsExact(db3, ROOT_TEMPLATE, key, today, ar);
    var (db4, r4) := SignDefault(db3, TemplateStatement(ROOT_TEMPLATE), key, today);
    SignRoot(db4, SIGNER_TEMPLATE, key, today, ar);
    SignDefaultIsExact(db4, SIGNER_TEMPLATE, key, today, ar);
    ReadCachesAreExact(SignDefault(db4, TemplateStatement(SIGNER_TEMPLATE), key, today).0, ar);
  }

  /** The rows a start can add. */
  ghost predicate RootOrSigner(db: Db, r: Row<StatementData>) {
    || r in db.statements
    || r.data.contents.name == "signer"
    || r.data.contents == ContentsOf(TemplateStatement(ROOT_TEMPLATE))
    || r.data.contents == ContentsOf(TemplateStatement(SIGNER_TEMPLATE))
  }

  lemma SignDefaultAdds(db: Db, s: Statement, key: KeyPair, today: U32)
    ensures forall r | r in SignDefault(db, s, key, today).0.statements ::
              r in db.statements || r.data.contents.name == "signer" || (s.entities != [] && r.data.contents == ContentsOf(s))
  {
    hide PersistStatement, PersistOpinion, ContentsOf, StatementText, SignUsing;
    PersistAdds(db, s);
    var (db1, r) := PersistStatement(db, s);
    if r.Done? { PersistOpinionAdds(db1, SignUsing(DefaultOpinion(today), StatementText(s), key), r.value.id); }
  }

  lemma EnsureOwnKeyAdds(db: Db, generated: KeyPair)
    ensures forall r | r in EnsureOwnKey(db, generated).0.statements :: r in db.statements || r.data.contents.name == "signer"
  {
    hide PersistStatement, ReadContents, EntityText;
    PersistAdds(db, SignerStatement(generated.public));
  }

  lemma InitializeAdds(db: Db, generated: KeyPair, today: U32)
    ensures forall r | r in Initialize(db, generated, today).0.statements :: RootOrSigner(db, r)
  {
    hide PersistStatement, SignDefault, EnsureOwnKey, ReadTemplates, ReadSigners, ContentsOf;
    PersistAdds(db, TemplateStatement(ROOT_TEMPLATE));
    var db1 := PersistStatement(db, TemplateStatement(ROOT_TEMPLATE)).0;
    PersistAdds(db1, TemplateStatement(SIGNER_TEMPLATE));
    var db2 := PersistStatement(db1, TemplateStatement(SIGNER_TEMPLATE)).0;
    EnsureOwnKeyAdds(db2, generated);
    var (db3, own) := EnsureOwnKey(db2, generated);
    if own.Done? {
      SignDefaultAdds(db3, TemplateStatement(ROOT_TEMPLATE), own.value.key, today);
      var db4 := SignDefault(db3, TemplateStatement(ROOT_TEMPLATE), own.value.key, today).0;
      SignDefaultAdds(db4, TemplateStatement(SIGNER_TEMPLATE), own.value.key, today);
    }
  }

  /** The first cleanup deletes no template, so a new node's template cache is exact. */
  lemma NewNodeIsExact(generated: KeyPair, today: U32, ar: Arity)
    requires GoodArity(ar) && Printable(Signer(generated.public))
    ensures Begin(EMPTY, generated, today).Some? && CacheIsExact(Begin(EMPTY, generated, today).value.db)
  {
    hide View, ValidTables, Healthy, CacheCovers, Initialize, Complete, HasTemplate, KnowsSigners, OwnEntry, Printable,
      Referenced, TemplateOf, ContentsOf, Cleanup;
    EmptyIsValid(ar);
    BeginIsHealthy(EMPTY, generated, today, ar);
    InitializationCompletes(EMPTY, generated, today, ar);
    InitializeIsExact(EMPTY, generated, today, ar);
    InitializeAdds(EMPTY, generated, today);
    var db := Initialize(EMPTY, generated, today).0;
    CleanupKeeps(db, today, ar);
    CleanupKeepsComplete(db, today, ar);
    var db' := Cleanup(db, today);
    assert db'.templates == db.templates by { CleanupKeepsCaches(db, today); }
    forall id | id in db'.templates
      ensures exists r | r in db'.statements :: r.id == id && TemplateOf(r.data) == Some(db'.templates[id])
    {
      var r :| r in db.statements && r.id == id && TemplateOf(r.data) == Some(db.templates[id]);
      RootRowStays(db, db', r, today, ar);
    }
  }

  lemma CleanupKeepsCaches(db: Db, today: nat)
    ensures Cleanup(db, today).templates == db.templates
  {
  }

  lemma RootRowStays(db: Db, db': Db, r: Row<StatementData>, today: U32, ar: Arity)
    requires GoodArity(ar) && ValidTables(db, ar) && Complete(db', today)
    requires r in db.statements && RootOrSigner(EMPTY, r) && TemplateOf(r.data).Some?
    requires forall q | q in db'.statements :: q in db.statements
    ensures r in db'.statements
  {
    hide View, ContentsOf, ReadContents, Takes, OwnEntry, Increasing, Faithful, ValidOpinions, ValidPrivateKeys,
      CacheConforms;
    TemplateName(r.data);
    var q :| q in db'.statements && q.data.contents == r.data.contents;
    UniqueIds(db.statements);
  }

  lemma TemplateName(d: StatementData)
    ensures TemplateOf(d).Some? ==> d.contents.name == "template"
  {
    ReadName(d.contents);
    hide ReadContents;
  }

  /** The opinions on the root templates are among those there are. */
  ghost predicate Includes(all: iset<Entry>, key: KeyPair, d: UnsignedOpinion) {
    RootEntry(ROOT_TEMPLATE, key, d) in all && RootEntry(SIGNER_TEMPLATE, key, d) in all
  }

  lemma RootViewWithin(all: iset<Entry>, key: KeyPair, d: UnsignedOpinion)
    requires Includes(all, key, d)
    ensures Within(RootView(key, d), all)
  {
    hide ContentsOf, StatementText, SignableText;
  }

  lemma NewNodesArePaired(g: KeyPair, today: U32, h: KeyPair, later: U32, all: iset<Entry>, ar: Arity)
    requires GoodArity(ar) && Printable(Signer(g.public)) && Printable(Signer(h.public)) && UniquelySigned(all)
    requires Includes(all, g, DefaultOpinion(today)) && Includes(all, h, DefaultOpinion(later))
    ensures var (a, b) := (Begin(EMPTY, g, today), Begin(EMPTY, h, later));
            && a.Some? && b.Some? && Sound(a.value, ar) && Sound(b.value, ar)
            && Compatible(a.value.db, b.value.db, all, ar)
            && View(a.value.db) == RootView(g, DefaultOpinion(today))
            && View(b.value.db) == RootView(h, DefaultOpinion(later))
            && (g.public != h.public ==> !TiedApart(View(a.value.db), View(b.value.db)))
  {
    hide View, Valid, KnowsSigners, RootView, Begin, UniquelySigned, RootEntry, ContentsOf, Printable, Understands,
      Within, RootsOnly;
    NewNodeView(g, today, ar);
    NewNodeView(h, later, ar);
    var a, b := Begin(EMPTY, g, today).value, Begin(EMPTY, h, later).value;
    RootViewWithin(all, g, DefaultOpinion(today));
    RootViewWithin(all, h, DefaultOpinion(later));
    RootViewIs(g, DefaultOpinion(today));
    RootViewIs(h, DefaultOpinion(later));
    RootsAreUnderstood(a.db, View(a.db).Keys + View(b.db).Keys);
    RootsAreUnderstood(b.db, View(a.db).Keys + View(b.db).Keys);
  }

  /** Two new nodes that exchange announcements only. The template requests with which a
      connection begins are missing here: what they change is said in `Handshake`. No message
      of a session fails, and a session that can go no further leaves both with the own
      opinions of both. */
  lemma NewNodesConverge(
      g: KeyPair, today: U32, h: KeyPair, later: U32, rounds: seq<Round>, all: iset<Entry>, ar: Arity)
    requires GoodArity(ar) && Printable(Signer(g.public)) && Printable(Signer(h.public)) && UniquelySigned(all)
    requires Includes(all, g, DefaultOpinion(today)) && Includes(all, h, DefaultOpinion(later))
    requires g.public != h.public
    ensures Begin(EMPTY, g, today).Some? && Begin(EMPTY, h, later).Some?
    ensures var (a, b) := (Begin(EMPTY, g, today).value, Begin(EMPTY, h, later).value);
            IsSession(a, b, rounds) ==>
              && SessionEnd(a, b, rounds).Some?
              && var (a', b') := SessionEnd(a, b, rounds).value;
                 (!exists r :: IsExchange(a', b', r) && TopDate(View(a'.db), View(b'.db), r.date)) ==>
                   View(a'.db) == View(b'.db)
                   == LaterOf(RootView(g, DefaultOpinion(today)), RootView(h, DefaultOpinion(later)))
  {
    hide View, Sound, Compatible, TiedApart, RootView, Begin, UniquelySigned, Includes, IsSession, SessionEnd,
      IsExchange, TopDate, LaterOf, Differing, Printable;
    NewNodesArePaired(g, today, h, later, all, ar);
    var a, b := Begin(EMPTY, g, today).value, Begin(EMPTY, h, later).value;
    if IsSession(a, b, rounds) {
      SessionsConverge(a, b, rounds, all, ar);
    }
  }
}
