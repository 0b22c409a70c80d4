/** What every operation on the store keeps, and what persisting a statement promises. */
module StoreInvariants {
  import opened Entities
  import opened Options
  import opened RoundTrip
  import opened CidrIndex
  import opened Tables
  import opened Store

  /** How many entities the statements of each name have: between one and three. The source
      compares too few columns for names used with different numbers of entities
      (`ShorterFindsLonger`), and the wrong ones from four entities on
      (`FourEntitiesRepeat`). */
  type Arity = string -> nat

  ghost predicate GoodArity(ar: Arity) {
    ar("template") == 1 && ar("signer") == 1 && forall n: string :: 1 <= ar(n) <= 3
  }

  /** What is asked of a statement given to the store: its entities read back, and a
      template it brings has the number of entity types its name calls for. */
  ghost predicate Acceptable(s: Statement, ar: Arity) {
    && AllPrintable(s.entities)
    && (IsTemplateStatement(s) ==> TemplateConforms(s.entities[0].template, ar))
  }

  ghost predicate TemplateConforms(t: Template, ar: Arity) {
    |t.entityTypes| == ar(t.name)
  }

  /** The row was made from an acceptable statement of the right arity. */
  ghost predicate Faithful(d: StatementData, ar: Arity) {
    exists s: Statement :: |s.entities| == ar(s.name) > 0 && Acceptable(s, ar) && d == DataOf(s)
  }

  /** The key a row names when it is a signer row. */
  function SignerOf(d: StatementData): Option<PublicKey> {
    match ReadContents(d.contents)
    case Some(s) =>
      if s.name == "signer" && |s.entities| == 1 && s.entities[0].Signer? then Some(s.entities[0].key) else None
    case None => None
  }

  function TemplateOf(d: StatementData): Option<Template> {
    match ReadContents(d.contents)
    case Some(s) => if IsTemplateStatement(s) then Some(s.entities[0].template) else None
    case None => None
  }

  ghost predicate ValidStatements(t: Table<StatementData>, ar: Arity) {
    && Increasing(t)
    && (forall r | r in t :: Faithful(r.data, ar))
    && (forall r, q | r in t && q in t && r.data.contents == q.data.contents :: r.id == q.id)
  }

  /** `id` is the row of some signer. */
  ghost predicate IsSignerRow(t: Table<StatementData>, id: nat) {
    ById(t, id).Some? && SignerOf(ById(t, id).value).Some?
  }

  /** Opinions refer to a statement and a signer, and there is one per pair. */
  ghost predicate ValidOpinions(db: Db) {
    && Increasing(db.opinions)
    && (forall o | o in db.opinions ::
          ById(db.statements, o.data.statementId).Some? && IsSignerRow(db.statements, o.data.signerId))
    && (forall o, p | o in db.opinions && p in db.opinions ::
          o.data.statementId == p.data.statementId && o.data.signerId == p.data.signerId ==> o.id == p.id)
  }

  /** The private key's row names the key's public half. */
  ghost predicate ValidPrivateKeys(db: Db) {
    forall p | p in db.privateKeys ::
      IsSignerRow(db.statements, p.signerId) && SignerOf(ById(db.statements, p.signerId).value).value == p.key.public
  }

  ghost predicate CacheConforms(db: Db, ar: Arity) {
    forall id | id in db.templates :: TemplateConforms(db.templates[id], ar)
  }

  ghost predicate ValidTables(db: Db, ar: Arity) {
    ValidStatements(db.statements, ar) && ValidOpinions(db) && ValidPrivateKeys(db) && CacheConforms(db, ar)
  }

  /** A signer or template row is in its cache under its id. */
  ghost predicate Cached(db: Db, r: Row<StatementData>) {
    && (SignerOf(r.data).Some? ==> r.id in db.signers && db.signers[r.id] == SignerOf(r.data).value)
    && (TemplateOf(r.data).Some? ==> r.id in db.templates && db.templates[r.id] == TemplateOf(r.data).value)
  }

  /** The caches cover the table. They may hold more: cleanup does not prune them, and ids
      are used again. */
  ghost predicate CacheCovers(db: Db) {
    forall r | r in db.statements :: Cached(db, r)
  }

  ghost predicate Valid(db: Db, ar: Arity) {
    ValidTables(db, ar) && CacheCovers(db)
  }

  /* ---- rows ---- */

  lemma FaithfulReads(s: Statement, ar: Arity)
    requires Acceptable(s, ar) && 1 <= |s.entities| <= 4
    ensures ReadContents(DataOf(s).contents) == Some(s)
  {
    hide ReadContents, AllPrintable, EntityText, CidrKeys;
    RowReadsBack(s);
  }

  /** Under one arity per name, the compared columns are all the columns. */
  lemma PatternIsExact(row: Contents, c: Contents, n: nat)
    requires 1 <= n <= 3
    requires row.name == c.name
    requires HasColumns(row, n) && HasColumns(c, n)
    ensures Pattern(row, c) <==> row == c
  {
  }

  predicate HasColumns(c: Contents, n: nat) {
    (c.e2.Some? <==> n >= 2) && (c.e3.Some? <==> n >= 3) && (c.e4.Some? <==> n >= 4)
  }

  lemma FaithfulColumns(d: StatementData, ar: Arity)
    requires Faithful(d, ar)
    ensures HasColumns(d.contents, ar(d.contents.name))
  {
  }

  /** A statement with a template has the arity of its name. */
  lemma MatchedArity(db: Db, s: Statement, ar: Arity)
    requires GoodArity(ar) && CacheConforms(db, ar) && HasTemplate(db.templates, s)
    ensures |s.entities| == ar(s.name)
  {
    if !IsTemplateStatement(s) {
      var id :| id in db.templates && Matches(s, db.templates[id]);
    }
  }

  /** The select finds the row with exactly these contents, if there is one. */
  lemma SelectIsExact(t: Table<StatementData>, s: Statement, ar: Arity)
    requires GoodArity(ar) && ValidStatements(t, ar)
    requires |s.entities| == ar(s.name)
    ensures var r := Select(t, ContentsOf(s));
            if r.Some? then r.value in t && r.value.data.contents == ContentsOf(s)
            else forall q | q in t :: q.data.contents != ContentsOf(s)
  {
    hide EntityText;
    var c := ContentsOf(s);
    assert HasColumns(c, ar(s.name));
    forall r | r in t && r.data.contents.name == c.name
      ensures Pattern(r.data.contents, c) <==> r.data.contents == c
    {
      FaithfulColumns(r.data, ar);
      PatternIsExact(r.data.contents, c, ar(s.name));
    }
  }

  /** The rows of equal contents are equal throughout: the range columns follow. */
  lemma ContentsDetermineRow(d: StatementData, s: Statement, ar: Arity)
    requires GoodArity(ar) && Faithful(d, ar) && Acceptable(s, ar) && |s.entities| == ar(s.name)
    requires d.contents == ContentsOf(s)
    ensures d == DataOf(s)
  {
    hide ReadContents, AllPrintable, EntityText, CidrKeys;
    var q: Statement :| |q.entities| == ar(q.name) > 0 && Acceptable(q, ar) && d == DataOf(q);
    FaithfulReads(q, ar);
    FaithfulReads(s, ar);
  }

  /* ---- persisting a statement ---- */

  /** What persisting changes: at most one statement row is added, at the end. */
  ghost predicate Grown(db: Db, db': Db) {
    && db'.opinions == db.opinions && db'.privateKeys == db.privateKeys
    && (forall r | r in db.statements :: r in db'.statements)
    && (forall id | ById(db.statements, id).Some? :: ById(db'.statements, id) == ById(db.statements, id))
    && db.templates.Keys <= db'.templates.Keys
  }

  lemma GrownKeeps(db: Db, db': Db)
    requires Grown(db, db') && ValidOpinions(db) && ValidPrivateKeys(db)
    ensures ValidOpinions(db') && ValidPrivateKeys(db')
  {
    hide SignerOf, Increasing;
  }

  /** The inserting case adds one faithful row with contents no other row has. */
  lemma InsertStatement(db: Db, s: Statement, ar: Arity)
    requires GoodArity(ar) && ValidTables(db, ar) && Acceptable(s, ar) && |s.entities| == ar(s.name)
    requires forall q | q in db.statements :: q.data.contents != ContentsOf(s)
    ensures var db' := db.(statements := Insert(db.statements, DataOf(s)));
            && ValidTables(db', ar) && Grown(db, db')
            && ById(db'.statements, NextId(db.statements)) == Some(DataOf(s))
  {
    hide DataOf, SignerOf, Acceptable;
    var db' := db.(statements := Insert(db.statements, DataOf(s)));
    InsertKeeps(db.statements, DataOf(s));
    ContentsOfData(s);
    assert Faithful(DataOf(s), ar);
    assert ValidStatements(db'.statements, ar);
    GrownKeeps(db, db');
  }

  lemma ContentsOfData(s: Statement)
    requires s.entities != []
    ensures DataOf(s).contents == ContentsOf(s)
  {
  }

  lemma RowMeans(s: Statement, ar: Arity)
    requires Acceptable(s, ar) && 1 <= |s.entities| <= 4
    ensures var d := DataOf(s);
            && SignerOf(d) == (if s.name == "signer" && |s.entities| == 1 && s.entities[0].Signer? then Some(s.entities[0].key) else None)
            && TemplateOf(d) == (if IsTemplateStatement(s) then Some(s.entities[0].template) else None)
  {
    hide DataOf, ReadContents, AllPrintable;
    FaithfulReads(s, ar);
  }

  /** Remembering a persisted statement keeps the caches in step with its row. */
  lemma RememberKeeps(db: Db, id: nat, s: Statement, ar: Arity)
    requires s.entities != []
    requires GoodArity(ar) && ValidTables(db, ar) && Acceptable(s, ar) && |s.entities| == ar(s.name)
    requires ById(db.statements, id) == Some(DataOf(s))
    ensures var db' := Remember(db, id, s);
            && ValidTables(db', ar) && Grown(db, db')
            && db'.statements == db.statements
            && (forall r | r in db.statements && (r.id == id || Cached(db, r)) :: Cached(db', r))
  {
    hide DataOf, SignerOf, TemplateOf, Faithful, AllPrintable, Increasing, ValidOpinions, ValidPrivateKeys,
      ValidStatements, ById;
    GrownKeeps(db, Remember(db, id, s));
    RememberCaches(db, id, s, ar);
  }

  lemma RememberCaches(db: Db, id: nat, s: Statement, ar: Arity)
    requires s.entities != []
    requires GoodArity(ar) && ValidTables(db, ar) && Acceptable(s, ar) && |s.entities| == ar(s.name)
    requires ById(db.statements, id) == Some(DataOf(s))
    ensures var db' := Remember(db, id, s);
            forall r | r in db.statements && (r.id == id || Cached(db, r)) :: Cached(db', r)
  {
    hide DataOf, SignerOf, TemplateOf, Faithful, AllPrintable, Increasing, ValidOpinions, ValidPrivateKeys,
      CacheConforms;
    RowMeans(s, ar);
    UniqueIds(db.statements);
    assert forall r | r in db.statements && r.id == id :: r.data == DataOf(s);
  }

  lemma SameCaches(db: Db, db': Db)
    requires db'.templates == db.templates && db'.signers == db.signers
    ensures forall r :: Cached(db', r) == Cached(db, r)
  {
  }

  /** Persisting finds or inserts: it fails exactly when there is no template, and otherwise
      returns the id of the one row that holds the statement. Nothing valid is lost. */
  lemma PersistFindsOrInserts(db: Db, s: Statement, ar: Arity)
    requires GoodArity(ar) && ValidTables(db, ar) && Acceptable(s, ar)
    ensures var (db', r) := PersistStatement(db, s);
            && ValidTables(db', ar) && Grown(db, db')
            && (CacheCovers(db) ==> CacheCovers(db'))
            && (forall r | r in db.statements && Cached(db, r) :: Cached(db', r))
            && (if !HasTemplate(db.templates, s) then r == NoTemplate && db' == db
                else
                  && r.Done? && r.value.data == s
                  && ById(db'.statements, r.value.id) == Some(DataOf(s))
                  && Cached(db', Row(r.value.id, DataOf(s)))
                  && r.value.inserted == (forall q | q in db.statements :: q.data.contents != ContentsOf(s))
                  && (!r.value.inserted ==> db'.statements == db.statements))
  {
    hide DataOf, SignerOf, TemplateOf, Acceptable, Select, EntityText, Increasing, HasTemplate, Remember,
      Faithful, ValidOpinions, ValidPrivateKeys, Cached;
    if HasTemplate(db.templates, s) {
      MatchedArity(db, s, ar);
      SelectIsExact(db.statements, s, ar);
      ContentsOfData(s);
      var found := Select(db.statements, ContentsOf(s));
      UniqueIds(db.statements);
      if found.Some? {
        ContentsDetermineRow(found.value.data, s, ar);
        RememberKeeps(db, found.value.id, s, ar);
      } else {
        InsertStatement(db, s, ar);
        InsertKeeps(db.statements, DataOf(s));
        var db1 := db.(statements := Insert(db.statements, DataOf(s)));
        RememberKeeps(db1, NextId(db.statements), s, ar);
        SameCaches(db, db1);
        assert Row(NextId(db.statements), DataOf(s)) in db1.statements;
      }
    }
  }

  lemma RememberAgain(db: Db, id: nat, s: Statement)
    requires s.entities != [] && (s.name == "template" ==> |s.entities| == 1)
    ensures Remember(Remember(db, id, s), id, s) == Remember(db, id, s)
    ensures Remember(db, id, s).statements == db.statements
    ensures HasTemplate(db.templates, s) ==> HasTemplate(Remember(db, id, s).templates, s)
  {
    if HasTemplate(db.templates, s) && !IsTemplateStatement(s) {
      assert Remember(db, id, s).templates == db.templates;
    }
  }

  /** Persisting again returns the same id, reports an old row and changes nothing. */
  lemma PersistAgain(db: Db, s: Statement, ar: Arity)
    requires GoodArity(ar) && ValidTables(db, ar) && Acceptable(s, ar)
    requires PersistStatement(db, s).1.Done?
    ensures var (db', r) := PersistStatement(db, s);
            PersistStatement(db', s) == (db', Done(Persisted(r.value.id, false, s)))
  {
    hide DataOf, Acceptable, Select, EntityText, Increasing, Faithful, ValidOpinions, ValidPrivateKeys,
      Remember, HasTemplate;
    var (db', r) := PersistStatement(db, s);
    PersistFindsOrInserts(db, s, ar);
    MatchedArity(db, s, ar);
    var found := Select(db.statements, ContentsOf(s));
    var before := if found.Some? then db else db.(statements := Insert(db.statements, DataOf(s)));
    RememberAgain(before, r.value.id, s);
    assert HasTemplate(db'.templates, s);
    SelectIsExact(db'.statements, s, ar);
    ContentsOfData(s);
    assert Row(r.value.id, DataOf(s)) in db'.statements;
  }

  /** When persisting refuses: the statement holds no template, and every template known has
      another name, another length, or allows no entity of some type at its place. */
  lemma RefusedWithoutTemplate(db: Db, s: Statement)
    ensures PersistStatement(db, s).1.NoTemplate? <==>
              && !(s.name == "template" && |s.entities| == 1 && s.entities[0].TemplateEntity?)
              && forall id | id in db.templates ::
                   var t := db.templates[id];
                   || t.name != s.name || |t.entityTypes| != |s.entities|
                   || exists k | 0 <= k < |s.entities| :: TypeOf(s.entities[k]) !in t.entityTypes[k]
    ensures PersistStatement(db, s).1.NoTemplate? ==> PersistStatement(db, s).0 == db
  {
    hide Select, Violates, ContentsOf, Remember;
  }

  /** With four entities the last comparison is with the third entity's text. A statement
      already stored is found again exactly when its third and fourth entities print
      alike; otherwise another row is taken for it, or there is none and the insert that
      follows runs into the unique constraint. */
  lemma FourEntitiesRepeat(db: Db, s: Statement, row: Row<StatementData>)
    requires |s.entities| >= 4 && HasTemplate(db.templates, s)
    requires Increasing(db.statements)
    requires forall r, q | r in db.statements && q in db.statements && r.data.contents == q.data.contents :: r.id == q.id
    requires row in db.statements && row.data.contents == ContentsOf(s)
    ensures var alike := EntityText(s.entities[2]) == EntityText(s.entities[3]);
            var r := PersistStatement(db, s).1;
            && (r == Done(Persisted(row.id, false, s)) <==> alike)
            && (!alike ==> (r.Panicked? <==>
                 forall q | q in db.statements :: q.data.contents != ContentsOf(s).(e4 := ContentsOf(s).e3)))
  {
    hide EntityText, Increasing, HasTemplate, Remember;
    UniqueIds(db.statements);
    var c := ContentsOf(s);
    forall q | q in db.statements ensures Pattern(q.data.contents, c) <==> q.data.contents == c.(e4 := c.e3) {
    }
    assert Violates(db.statements, c);
  }

  /** The name and the first `n` columns are the same. */
  predicate SameStart(row: Contents, c: Contents, n: nat) {
    && row.name == c.name && row.e1 == c.e1
    && (n >= 2 ==> row.e2 == c.e2)
    && (n >= 3 ==> row.e3 == c.e3)
  }

  /** There is a value in a column after the first `n`. */
  predicate HasMore(row: Contents, n: nat) {
    (n < 2 && row.e2.Some?) || (n < 3 && row.e3.Some?) || row.e4.Some?
  }

  /** The rows of a table in some order in which a query may fetch them. */
  ghost predicate IsOrderOf<T>(u: Table<T>, t: Table<T>) {
    multiset(u) == multiset(t)
  }

  lemma OrderHasRows<T>(u: Table<T>, t: Table<T>)
    requires IsOrderOf(u, t)
    ensures forall r :: r in u <==> r in t
  {
    forall r ensures r in u <==> r in t {
      assert r in multiset(u) <==> r in multiset(t);
    }
  }

  /** Any row can be the first to be fetched. */
  lemma OrderFrom<T>(t: Table<T>, r: Row<T>) returns (u: Table<T>)
    requires r in t
    ensures IsOrderOf(u, t) && u != [] && u[0] == r
  {
    var k :| 0 <= k < |t| && t[k] == r;
    u := [t[k]] + (t[..k] + t[k + 1..]);
    assert t == t[..k] + ([t[k]] + t[k + 1..]);
  }

  /** The select answers with a row that has other contents. */
  predicate TakesAnother(u: Table<StatementData>, c: Contents) {
    Select(u, c).Some? && Select(u, c).value.data.contents != c
  }

  /** The select answers with a row of these contents. */
  predicate FindsIt(u: Table<StatementData>, c: Contents) {
    Select(u, c).Some? && Select(u, c).value.data.contents == c
  }

  predicate IsLonger(r: Row<StatementData>, c: Contents, n: nat) {
    SameStart(r.data.contents, c, n) && HasMore(r.data.contents, n)
  }

  /** On any table, whatever numbers of entities its names have, and for a statement of one
      to three entities. The query asks for no order. In some order of the rows another row is
      taken for the statement if and only if a longer one of its name begins with its columns;
      in every order, if and only if moreover the statement itself is not stored. And it is
      found itself in every order if and only if it is stored and no longer one is. */
  lemma ShorterFindsLonger(db: Db, s: Statement)
    requires 1 <= |s.entities| <= 3 && HasTemplate(db.templates, s)
    ensures var (t, c, n) := (db.statements, ContentsOf(s), |s.entities|);
            && ((exists u :: IsOrderOf(u, t) && TakesAnother(u, c)) <==> exists r | r in t :: IsLonger(r, c, n))
            && ((forall u | IsOrderOf(u, t) :: TakesAnother(u, c)) <==>
                  (exists r | r in t :: IsLonger(r, c, n)) && forall r | r in t :: r.data.contents != c)
            && ((forall u | IsOrderOf(u, t) :: FindsIt(u, c)) <==>
                  (exists r | r in t :: r.data.contents == c) && forall r | r in t :: !IsLonger(r, c, n))
    ensures forall u | IsOrderOf(u, db.statements) && TakesAnother(u, ContentsOf(s)) ::
              PersistStatement(db.(statements := u), s).1 == Done(Persisted(Select(u, ContentsOf(s)).value.id, false, s))
  {
    hide EntityText, HasTemplate, Remember;
    var t, c, n := db.statements, ContentsOf(s), |s.entities|;
    forall row: Contents ensures Pattern(row, c) <==> SameStart(row, c, n)
      ensures SameStart(row, c, n) ==> (row != c <==> HasMore(row, n))
    {
      StartIsPattern(row, s);
    }
    hide Pattern, SameStart, HasMore, ContentsOf, IsOrderOf;
    forall u | IsOrderOf(u, t)
      ensures TakesAnother(u, c) ==> exists r | r in t :: IsLonger(r, c, n)
      ensures (exists r | r in t :: IsLonger(r, c, n)) && (forall r | r in t :: r.data.contents != c) ==> TakesAnother(u, c)
      ensures FindsIt(u, c) ==> exists r | r in t :: r.data.contents == c
      ensures (exists r | r in t :: r.data.contents == c) ==> Select(u, c).Some?
    {
      StartsWithItself(c, s);
      OrderHasRows(u, t);
      if TakesAnother(u, c) { assert IsLonger(Select(u, c).value, c, n); }
    }
    SelfIsOrder(t);
    forall r | r in t
      ensures IsLonger(r, c, n) ==> exists u :: IsOrderOf(u, t) && TakesAnother(u, c)
      ensures r.data.contents == c ==> exists u :: IsOrderOf(u, t) && !TakesAnother(u, c)
    {
      var u := OrderFrom(t, r);
      StartsWithItself(c, s);
      assert IsLonger(r, c, n) ==> TakesAnother(u, c);
      assert r.data.contents == c ==> !TakesAnother(u, c);
    }
  }

  lemma SelfIsOrder<T>(t: Table<T>)
    ensures IsOrderOf(t, t)
  {
  }

  lemma StartsWithItself(c: Contents, s: Statement)
    requires 1 <= |s.entities| <= 3 && c == ContentsOf(s)
    ensures SameStart(c, c, |s.entities|)
  {
  }

  lemma StartIsPattern(row: Contents, s: Statement)
    requires 1 <= |s.entities| <= 3
    ensures var (c, n) := (ContentsOf(s), |s.entities|);
            && (Pattern(row, c) <==> SameStart(row, c, n))
            && (SameStart(row, c, n) ==> (row != c <==> HasMore(row, n)))
  {
    hide EntityText;
  }
}
