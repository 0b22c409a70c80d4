/** Starting completes a partly initialized database, and starting again changes nothing. */
module StartupProofs {
  import opened Entities
  import opened Options
  import opened RoundTrip
  import opened Opinions
  import opened Tables
  import opened Store
  import opened StoreInvariants
  import opened Registers
  import opened Views
  import opened Merging
  import opened Cleaning
  import opened Startup

  /** A template for signers is stored and remembered. */
  ghost predicate RemembersSigners(db: Db) {
    exists r | r in db.statements :: TemplateOf(r.data) == Some(SIGNER_TEMPLATE) && Cached(db, r)
  }

  lemma RememberedSigners(db: Db, k: PublicKey)
    requires RemembersSigners(db)
    ensures HasTemplate(db.templates, SignerStatement(k))
  {
    hide TemplateOf, SignerOf;
    var s := SignerStatement(k);
    assert TypeOf(Signer(k)) in [SignerType];
    assert Matches(s, SIGNER_TEMPLATE);
    var r :| r in db.statements && TemplateOf(r.data) == Some(SIGNER_TEMPLATE) && Cached(db, r);
    assert Matches(s, db.templates[r.id]);
  }

  lemma StillRemembers(db: Db, db': Db)
    requires RemembersSigners(db)
    requires forall r | r in db.statements :: r in db'.statements
    requires forall r | r in db.statements && Cached(db, r) :: Cached(db', r)
    ensures RemembersSigners(db')
  {
    hide TemplateOf, Cached;
  }

  /** The two templates every database starts with. */
  predicate IsRoot(t: Template) {
    t == ROOT_TEMPLATE || t == SIGNER_TEMPLATE
  }

  lemma RootIsAcceptable(t: Template, ar: Arity)
    requires GoodArity(ar) && IsRoot(t)
    ensures Acceptable(TemplateStatement(t), ar) && IsTemplateStatement(TemplateStatement(t))
    ensures TemplateOf(DataOf(TemplateStatement(t))) == Some(t)
  {
    hide TemplateOf, DataOf;
    assert Printable(TemplateEntity(t));
    RowMeans(TemplateStatement(t), ar);
  }

  /** Persisting a root template never fails and leaves its row remembered. */
  lemma PersistRoot(db: Db, t: Template, ar: Arity)
    requires GoodArity(ar) && ValidTables(db, ar) && IsRoot(t)
    ensures var (db', r) := PersistStatement(db, TemplateStatement(t));
            && r.Done? && ValidTables(db', ar) && Grown(db, db') && View(db') == View(db)
            && ById(db'.statements, r.value.id) == Some(DataOf(TemplateStatement(t)))
            && (forall q | q in db.statements && Cached(db, q) :: Cached(db', q))
            && (t == SIGNER_TEMPLATE || RemembersSigners(db) ==> RemembersSigners(db'))
            && (r.value.inserted ==> forall q | q in db.statements :: q.data.contents != ContentsOf(TemplateStatement(t)))
            && (!r.value.inserted ==> db'.statements == db.statements)
  {
    hide View, DataOf, ValidTables, TemplateOf, Cached, PersistStatement, Acceptable;
    RootIsAcceptable(t, ar);
    PersistFindsOrInserts(db, TemplateStatement(t), ar);
    var (db', r) := PersistStatement(db, TemplateStatement(t));
    GrownView(db, db', ar);
    assert Row(r.value.id, DataOf(TemplateStatement(t))) in db'.statements;
    if RemembersSigners(db) { StillRemembers(db, db'); }
  }

  /** Our own opinion on a root template. */
  function OwnEntry(t: Template, key: KeyPair, today: U32): Entry {
    var s := TemplateStatement(t);
    var o := SignUsing(DefaultOpinion(today), StatementText(s), key);
    Entry(Key(ContentsOf(s), key.public), StoredOf(o.data, o.signature))
  }

  lemma SignRoot(db: Db, t: Template, key: KeyPair, today: U32, ar: Arity)
    requires GoodArity(ar) && ValidTables(db, ar) && IsRoot(t) && RemembersSigners(db)
    requires Printable(Signer(key.public))
    ensures var (db', r) := SignDefault(db, TemplateStatement(t), key, today);
            && r.Done? && ValidTables(db', ar) && RemembersSigners(db')
            && StatementsGrown(db, db')
            && View(db') == Put(View(db), OwnEntry(t, key, today))
  {
    hide View, DataOf, ValidTables, TemplateOf, Cached, PersistStatement, PersistOpinion, ContentsOf,
      StatementText, ById, Printable;
    var s := TemplateStatement(t);
    PersistRoot(db, t, ar);
    var (db1, r) := PersistStatement(db, s);
    RememberedSigners(db1, key.public);
    var o := SignUsing(DefaultOpinion(today), StatementText(s), key);
    PersistOpinionPuts(db1, o, r.value.id, ar);
    ContentsOfData(s);
    StillRemembers(db1, PersistOpinion(db1, o, r.value.id).0);
  }

  lemma OwnKeyEnsured(db: Db, generated: KeyPair, ar: Arity)
    requires GoodArity(ar) && ValidTables(db, ar) && RemembersSigners(db)
    requires Printable(Signer(generated.public))
    ensures var (db', own) := EnsureOwnKey(db, generated);
            && own.Done? && ValidTables(db', ar) && RemembersSigners(db') && View(db') == View(db)
            && (forall r | r in db.statements :: r in db'.statements)
            && db'.privateKeys != [] && db'.privateKeys[0].key == own.value.key
            && (if db.privateKeys != [] then db' == db else |db'.privateKeys| == 1 && own.value.key == generated)
            && own.value.signer == Signer(own.value.key.public)
            && Printable(own.value.signer)
  {
    hide View, DataOf, SignerOf, TemplateOf, Cached, PersistStatement, Increasing, Faithful, Printable;
    if db.privateKeys != [] {
      var p := db.privateKeys[0];
      assert p in db.privateKeys;
      StoredKeyReads(db, p, ar);
    } else {
      var s := SignerStatement(generated.public);
      SignerIsPrintable(generated.public, ar);
      RememberedSigners(db, generated.public);
      PersistFindsOrInserts(db, s, ar);
      var (db1, r) := PersistStatement(db, s);
      GrownView(db, db1, ar);
      SignerRow(db1, r.value.id, generated.public, ar);
      var db' := EnsureOwnKey(db, generated).0;
      KeysAdded(db1, db', ar);
      StillRemembers(db, db');
    }
  }

  lemma KeysAdded(db: Db, db': Db, ar: Arity)
    requires ValidTables(db, ar) && db' == db.(privateKeys := db'.privateKeys) && ValidPrivateKeys(db')
    ensures ValidTables(db', ar) && View(db') == View(db)
    ensures forall r :: Cached(db', r) == Cached(db, r)
  {
    hide SignerOf, TemplateOf, ValidStatements, MapOf, Increasing;
  }

  lemma SignerIsPrintable(k: PublicKey, ar: Arity)
    requires Printable(Signer(k))
    ensures Acceptable(SignerStatement(k), ar)
  {
  }

  /** A stored key's row reads back as its signer. */
  lemma StoredKeyReads(db: Db, p: PrivateKey, ar: Arity)
    requires GoodArity(ar) && ValidTables(db, ar) && p in db.privateKeys
    ensures var row := ById(db.statements, p.signerId);
            && row.Some? && ReadContents(row.value.contents) == Some(SignerStatement(p.key.public))
            && Printable(Signer(p.key.public))
            && row.value.contents == ContentsOf(SignerStatement(p.key.public))
  {
    hide ReadContents, DataOf, Printable, ContentsOf, Increasing;
    var d := ById(db.statements, p.signerId).value;
    var r := Row(p.signerId, d);
    assert r in db.statements;
    var s: Statement :| |s.entities| == ar(s.name) > 0 && Acceptable(s, ar) && d == DataOf(s);
    FaithfulReads(s, ar);
    ContentsOfData(s);
    assert s == SignerStatement(p.key.public);
    assert s.entities[0] in s.entities;
  }

  /* ---- a complete database ---- */

  ghost predicate HasContents(t: Table<StatementData>, c: Contents) {
    exists r | r in t :: r.data.contents == c
  }

  /** Both root templates are stored, there is an own key, and its opinions on both
      templates are no older than today's would be. */
  ghost predicate Complete(db: Db, today: U32) {
    && db.privateKeys != []
    && HasContents(db.statements, ContentsOf(TemplateStatement(ROOT_TEMPLATE)))
    && HasContents(db.statements, ContentsOf(TemplateStatement(SIGNER_TEMPLATE)))
    && !Takes(View(db), OwnEntry(ROOT_TEMPLATE, db.privateKeys[0].key, today))
    && !Takes(View(db), OwnEntry(SIGNER_TEMPLATE, db.privateKeys[0].key, today))
  }

  /** Starting on any valid tables, with empty caches or old ones, succeeds: afterwards the
      database is complete, the caches cover it, and there is exactly the one private key
      there was, or one new one. Any signer statement then finds a template. */
  lemma InitializationCompletes(db: Db, generated: KeyPair, today: U32, ar: Arity)
    requires GoodArity(ar) && ValidTables(db, ar) && Printable(Signer(generated.public))
    ensures var (db', own) := Initialize(db, generated, today);
            && own.Done? && Valid(db', ar) && Complete(db', today)
            && (if db.privateKeys != [] then db'.privateKeys == db.privateKeys else |db'.privateKeys| == 1)
            && own.value.key == db'.privateKeys[0].key && own.value.signer == Signer(own.value.key.public)
            && own.value.key == (if db.privateKeys != [] then db.privateKeys[0].key else generated)
            && KnowsSigners(db')
            && (forall k :: HasTemplate(db'.templates, SignerStatement(k)))
            && var key := own.value.key;
               View(db') == Put(Put(View(db), OwnEntry(ROOT_TEMPLATE, key, today)), OwnEntry(SIGNER_TEMPLATE, key, today))
  {
    hide View, DataOf, ValidTables, TemplateOf, Cached, PersistStatement, SignDefault, EnsureOwnKey, OwnEntry,
      ReadCaches, CacheCovers, ContentsOf, Printable;
    PersistRoot(db, ROOT_TEMPLATE, ar);
    var (db1, r1) := PersistStatement(db, TemplateStatement(ROOT_TEMPLATE));
    PersistRoot(db1, SIGNER_TEMPLATE, ar);
    var (db2, r2) := PersistStatement(db1, TemplateStatement(SIGNER_TEMPLATE));
    OwnKeyEnsured(db2, generated, ar);
    var (db3, own) := EnsureOwnKey(db2, generated);
    var key := own.value.key;
    SignRoot(db3, ROOT_TEMPLATE, key, today, ar);
    var (db4, r4) := SignDefault(db3, TemplateStatement(ROOT_TEMPLATE), key, today);
    SignRoot(db4, SIGNER_TEMPLATE, key, today, ar);
    var (db5, r5) := SignDefault(db4, TemplateStatement(SIGNER_TEMPLATE), key, today);
    var db' := ReadCaches(db5);
    CachesCover(db5, ar);
    CachesOnly(db5);
    PutIsHeld(View(db3), OwnEntry(ROOT_TEMPLATE, key, today), OwnEntry(SIGNER_TEMPLATE, key, today));
    RootsAreStored(db1, db2, db5, r1.value.id, r2.value.id);
    RemembersKnows(db5, db');
    forall k ensures HasTemplate(db'.templates, SignerStatement(k)) {
      SignersHaveTemplate(db', k);
    }
  }

  lemma CachesOnly(db: Db)
    ensures ReadCaches(db) == db.(templates := ReadCaches(db).templates, signers := ReadCaches(db).signers)
  {
  }

  lemma RemembersKnows(db: Db, db': Db)
    requires RemembersSigners(db) && db'.statements == db.statements
    ensures KnowsSigners(db')
  {
    hide TemplateOf;
  }

  lemma PutIsHeld(v: Register, e: Entry, f: Entry)
    ensures var w := Put(Put(v, e), f); !Takes(w, e) && !Takes(w, f)
  {
  }

  lemma RootsAreStored(db1: Db, db2: Db, db5: Db, id1: nat, id2: nat)
    requires ById(db1.statements, id1) == Some(DataOf(TemplateStatement(ROOT_TEMPLATE)))
    requires ById(db2.statements, id2) == Some(DataOf(TemplateStatement(SIGNER_TEMPLATE)))
    requires forall r | r in db1.statements :: r in db2.statements
    requires forall r | r in db2.statements :: r in db5.statements
    ensures HasContents(db5.statements, ContentsOf(TemplateStatement(ROOT_TEMPLATE)))
    ensures HasContents(db5.statements, ContentsOf(TemplateStatement(SIGNER_TEMPLATE)))
  {
    hide DataOf, ContentsOf;
    ContentsOfData(TemplateStatement(ROOT_TEMPLATE));
    ContentsOfData(TemplateStatement(SIGNER_TEMPLATE));
    assert Row(id1, DataOf(TemplateStatement(ROOT_TEMPLATE))) in db1.statements;
    assert Row(id2, DataOf(TemplateStatement(SIGNER_TEMPLATE))) in db2.statements;
  }

  /* ---- starting again ---- */

  predicate SameTables(db: Db, db': Db) {
    db'.statements == db.statements && db'.opinions == db.opinions && db'.privateKeys == db.privateKeys
  }

  /** Persisting what is stored changes no table. */
  lemma StoredStays(db: Db, s: Statement, ar: Arity)
    requires GoodArity(ar) && ValidTables(db, ar) && Acceptable(s, ar) && HasTemplate(db.templates, s)
    requires s.entities != [] && HasContents(db.statements, ContentsOf(s))
    ensures SameTables(db, PersistStatement(db, s).0)
  {
    hide DataOf, ValidTables, TemplateOf, Cached, PersistStatement, Acceptable, ContentsOf, HasTemplate;
    PersistFindsOrInserts(db, s, ar);
  }

  /** Writing an opinion that is not taken changes nothing. */
  lemma UntakenStays(db: Db, o: Opinion, id: nat, ar: Arity)
    requires GoodArity(ar) && ValidTables(db, ar) && AcceptableOpinion(o)
    requires ById(db.statements, id).Some? && HasTemplate(db.templates, SignerStatement(o.signer))
    requires HasContents(db.statements, ContentsOf(SignerStatement(o.signer)))
    requires !Takes(View(db), EntryOf(db.statements, o, id))
    ensures SameTables(db, PersistOpinion(db, o, id).0)
  {
    hide View, DataOf, ValidTables, TemplateOf, Cached, PersistStatement, Acceptable, ContentsOf, HasTemplate,
      EntryOf, Takes, AcceptableOpinion, CanInsert;
    SignerIsAcceptable(o, ar);
    StoredStays(db, SignerStatement(o.signer), ar);
    PersistOpinionPuts(db, o, id, ar);
  }

  lemma SignedStays(db: Db, t: Template, key: KeyPair, today: U32, ar: Arity)
    requires GoodArity(ar) && ValidTables(db, ar) && IsRoot(t) && RemembersSigners(db)
    requires Printable(Signer(key.public))
    requires HasContents(db.statements, ContentsOf(TemplateStatement(t)))
    requires HasContents(db.statements, ContentsOf(SignerStatement(key.public)))
    requires !Takes(View(db), OwnEntry(t, key, today))
    ensures SameTables(db, SignDefault(db, TemplateStatement(t), key, today).0)
  {
    hide View, DataOf, ValidTables, TemplateOf, Cached, PersistStatement, PersistOpinion, ContentsOf,
      StatementText, ById, Printable, Takes;
    var s := TemplateStatement(t);
    PersistRoot(db, t, ar);
    RootIsAcceptable(t, ar);
    StoredStays(db, s, ar);
    var (db1, r) := PersistStatement(db, s);
    RememberedSigners(db1, key.public);
    var o := SignUsing(DefaultOpinion(today), StatementText(s), key);
    ContentsOfData(s);
    UntakenStays(db1, o, r.value.id, ar);
  }

  lemma OwnSignerStored(db: Db, ar: Arity)
    requires GoodArity(ar) && ValidTables(db, ar) && db.privateKeys != []
    ensures HasContents(db.statements, ContentsOf(SignerStatement(db.privateKeys[0].key.public)))
    ensures Printable(Signer(db.privateKeys[0].key.public))
  {
    hide ReadContents, ContentsOf, ValidStatements, ValidOpinions, SignerOf, Printable;
    var p := db.privateKeys[0];
    assert p in db.privateKeys;
    StoredKeyReads(db, p, ar);
    assert Row(p.signerId, ById(db.statements, p.signerId).value) in db.statements;
  }

  /** Starting on a complete database changes no table, whatever the caches hold. */
  lemma CompleteStays(db: Db, generated: KeyPair, today: U32, ar: Arity)
    requires GoodArity(ar) && ValidTables(db, ar) && Printable(Signer(generated.public))
    requires Complete(db, today)
    ensures SameTables(db, Initialize(db, generated, today).0)
  {
    hide View, DataOf, ValidTables, TemplateOf, Cached, PersistStatement, SignDefault, EnsureOwnKey, OwnEntry,
      ReadCaches, CacheCovers, ContentsOf, Printable, Takes, HasTemplate;
    var root, signer := TemplateStatement(ROOT_TEMPLATE), TemplateStatement(SIGNER_TEMPLATE);
    RootIsAcceptable(ROOT_TEMPLATE, ar);
    RootIsAcceptable(SIGNER_TEMPLATE, ar);
    assert forall m :: HasTemplate(m, root) && HasTemplate(m, signer) by { RootsNeedNoTemplate(); }
    PersistRoot(db, ROOT_TEMPLATE, ar);
    StoredStays(db, root, ar);
    var db1 := PersistStatement(db, root).0;
    PersistRoot(db1, SIGNER_TEMPLATE, ar);
    StoredStays(db1, signer, ar);
    var db2 := PersistStatement(db1, signer).0;
    OwnKeyEnsured(db2, generated, ar);
    var (db3, own) := EnsureOwnKey(db2, generated);
    OwnSignerStored(db3, ar);
    var key := own.value.key;
    SignRoot(db3, ROOT_TEMPLATE, key, today, ar);
    SignedStays(db3, ROOT_TEMPLATE, key, today, ar);
    var db4 := SignDefault(db3, root, key, today).0;
    UntakenPut(View(db3), OwnEntry(ROOT_TEMPLATE, key, today));
    SignRoot(db4, SIGNER_TEMPLATE, key, today, ar);
    SignedStays(db4, SIGNER_TEMPLATE, key, today, ar);
    var db5 := SignDefault(db4, signer, key, today).0;
    CachesOnly(db5);
  }

  lemma RootsNeedNoTemplate()
    ensures forall m :: HasTemplate(m, TemplateStatement(ROOT_TEMPLATE)) && HasTemplate(m, TemplateStatement(SIGNER_TEMPLATE))
  {
  }

  lemma UntakenPut(v: Register, e: Entry)
    requires !Takes(v, e)
    ensures Put(v, e) == v
  {
  }

  /** Cleaning up on the same day keeps a complete database complete: our opinions on the
      root templates are fresh, and they and our key hold on to the rows. */
  lemma CleanupKeepsComplete(db: Db, today: U32, ar: Arity)
    requires GoodArity(ar) && ValidTables(db, ar) && Complete(db, today)
    ensures Complete(Cleanup(db, today), today)
  {
    hide View, DataOf, ValidTables, CacheCovers, ContentsOf;
    CleanupKeeps(db, today, ar);
    var db' := Cleanup(db, today);
    var key := db.privateKeys[0].key;
    FreshIsKept(View(db), OwnEntry(ROOT_TEMPLATE, key, today), today);
    FreshIsKept(View(db), OwnEntry(SIGNER_TEMPLATE, key, today), today);
    KeyHasRow(db', OwnEntry(ROOT_TEMPLATE, key, today).key, ar);
    KeyHasRow(db', OwnEntry(SIGNER_TEMPLATE, key, today).key, ar);
  }

  lemma FreshIsKept(v: Register, e: Entry, today: nat)
    requires !Takes(v, e) && e.stored.date == today
    ensures !Takes(Unexpired(v, today), e)
  {
  }

  lemma KeyHasRow(db: Db, k: Key, ar: Arity)
    requires GoodArity(ar) && ValidTables(db, ar) && k in View(db)
    ensures HasContents(db.statements, k.statement)
  {
    hide ValidStatements, ValidPrivateKeys, CacheConforms, SignerOf, MapOf, DistinctKeys, KeyIn;
    KeysAreDistinct(db, ar);
    MapRepresents(db.opinions, Naming(db.statements));
    var o :| o in db.opinions && KeyIn(db.statements, o.data) == k;
    KeyOfPair(db, o.data);
    assert Row(o.data.statementId, ById(db.statements, o.data.statementId).value) in db.statements;
  }

  /** What a node does when it starts: initialize, then clean up. The caches start empty. */
  function Start(db: Db, generated: KeyPair, today: U32): (Db, Outcome<OwnKey>) {
    var (db1, own) := Initialize(db.(templates := map[], signers := map[]), generated, today);
    (if own.Done? then Cleanup(db1, today) else db1, own)
  }

  /** Every start on valid tables succeeds and leaves a valid, complete store that knows
      signers; starting again on the same day, with any freshly generated key, changes no
      table and finds the same own key. */
  lemma StartIsIdempotent(db: Db, generated: KeyPair, again: KeyPair, today: U32, ar: Arity)
    requires GoodArity(ar) && ValidTables(db, ar)
    requires Printable(Signer(generated.public)) && Printable(Signer(again.public))
    ensures var (db1, own1) := Start(db, generated, today);
            var (db2, own2) := Start(db1, again, today);
            && own1.Done? && Valid(db1, ar) && Complete(db1, today)
            && SameTables(db1, db2) && own2 == own1
  {
    hide View, DataOf, ValidTables, CacheCovers, ContentsOf, Printable, Initialize, Cleanup, Complete, HasTemplate;
    var blank := db.(templates := map[], signers := map[]);
    CachesDropped(db, ar);
    InitializationCompletes(blank, generated, today, ar);
    var (i1, own1) := Initialize(blank, generated, today);
    CleanupKeepsComplete(i1, today, ar);
    CleanupKeeps(i1, today, ar);
    var db1 := Cleanup(i1, today);
    CachesDropped(db1, ar);
    var blank1 := db1.(templates := map[], signers := map[]);
    CompleteIgnoresCaches(db1, blank1, today, ar);
    CompleteStays(blank1, again, today, ar);
    InitializationCompletes(blank1, again, today, ar);
    var (i2, own2) := Initialize(blank1, again, today);
    CompletePrivateKey(db1, today);
    CleanupSeesTables(db1, i2, today);
    CleanupIsIdempotent(i1, today, ar);
  }

  lemma CompletePrivateKey(db: Db, today: U32)
    requires Complete(db, today)
    ensures db.privateKeys != []
  {
  }

  lemma CachesDropped(db: Db, ar: Arity)
    requires ValidTables(db, ar)
    ensures ValidTables(db.(templates := map[], signers := map[]), ar)
  {
    hide SignerOf, Faithful, Increasing, ById;
  }

  lemma CompleteIgnoresCaches(db: Db, db': Db, today: U32, ar: Arity)
    requires SameTables(db, db') && Complete(db, today)
    ensures Complete(db', today)
  {
    hide MapOf, ContentsOf, OwnEntry, Takes;
  }

  lemma CleanupSeesTables(db: Db, db': Db, today: nat)
    requires SameTables(db, db')
    ensures SameTables(Cleanup(db, today), Cleanup(db', today))
  {
    var x, y := CleanupOpinions(db, today), CleanupOpinions(db', today);
    assert forall id :: Referenced(x, id) == Referenced(y, id);
    KeepsAgree(x.statements, (r: Row<StatementData>) => Referenced(x, r.id), (r: Row<StatementData>) => Referenced(y, r.id));
    KeepsAgree(db.opinions, (r: Row<OpinionData>) => !Expired(r.data.stored, today), (r: Row<OpinionData>) => !Expired(r.data.stored, today));
  }

  lemma {:induction false} KeepsAgree<T>(t: Table<T>, p: Row<T> -> bool, q: Row<T> -> bool)
    requires forall r | r in t :: p(r) == q(r)
    ensures Keep(t, p) == Keep(t, q)
  {
    if t != [] {
      assert t[0] in t;
      KeepsAgree(t[1..], p, q);
    }
  }
}
