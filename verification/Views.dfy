/** The store seen without its ids: which opinion each signer holds on each statement.
    Persisting an opinion is writing a last-writer-wins register of that view. */
module Views {
  import opened Entities
  import opened Options
  import opened RoundTrip
  import opened Opinions
  import opened Tables
  import opened Store
  import opened StoreInvariants
  import opened Registers

  /* ---- a table of opinions under any naming of its rows ---- */

  ghost predicate DistinctKeys(os: Table<OpinionData>, f: OpinionData -> Key) {
    forall o, p | o in os && p in os && f(o.data) == f(p.data) :: o == p
  }

  ghost function StoredAt(os: Table<OpinionData>, f: OpinionData -> Key, k: Key): Stored
    requires exists o | o in os :: f(o.data) == k
  {
    var o :| o in os && f(o.data) == k;
    o.data.stored
  }

  ghost function MapOf(os: Table<OpinionData>, f: OpinionData -> Key): Register {
    map k | k in (set o | o in os :: f(o.data)) :: StoredAt(os, f, k)
  }

  ghost predicate Represents(m: Register, os: Table<OpinionData>, f: OpinionData -> Key) {
    && (forall o | o in os :: f(o.data) in m && m[f(o.data)] == o.data.stored)
    && (forall k | k in m :: exists o | o in os :: f(o.data) == k)
  }

  lemma MapRepresents(os: Table<OpinionData>, f: OpinionData -> Key)
    requires DistinctKeys(os, f)
    ensures Represents(MapOf(os, f), os, f)
  {
  }

  lemma OnlyMap(m: Register, os: Table<OpinionData>, f: OpinionData -> Key)
    requires DistinctKeys(os, f) && Represents(m, os, f)
    ensures MapOf(os, f) == m
  {
    MapRepresents(os, f);
    var v := MapOf(os, f);
    assert forall k :: k in v <==> k in m;
    forall k | k in v ensures v[k] == m[k] {
      var o :| o in os && f(o.data) == k;
    }
  }

  lemma MapInsert(os: Table<OpinionData>, f: OpinionData -> Key, row: Row<OpinionData>)
    requires DistinctKeys(os + [row], f) && row !in os
    ensures MapOf(os + [row], f) == MapOf(os, f)[f(row.data) := row.data.stored]
  {
    hide MapOf;
    assert forall o :: o in os + [row] <==> o in os || o == row;
    MapRepresents(os, f);
    OnlyMap(MapOf(os, f)[f(row.data) := row.data.stored], os + [row], f);
  }

  lemma MapAgree(os: Table<OpinionData>, f: OpinionData -> Key, g: OpinionData -> Key)
    requires DistinctKeys(os, f)
    requires forall o | o in os :: f(o.data) == g(o.data)
    ensures MapOf(os, g) == MapOf(os, f)
  {
    hide MapOf;
    MapRepresents(os, f);
    OnlyMap(MapOf(os, f), os, g);
  }

  /* ---- the view of a store ---- */

  const NOBODY := Key(Contents("", "", None, None, None), PublicKey(Rsa, ""))

  /** The contents and the key an opinion row refers to; in valid tables both are there. */
  ghost function KeyIn(t: Table<StatementData>, d: OpinionData): Key {
    if ById(t, d.statementId).Some? && IsSignerRow(t, d.signerId) then
      Key(ById(t, d.statementId).value.contents, SignerOf(ById(t, d.signerId).value).value)
    else NOBODY
  }

  ghost function Naming(t: Table<StatementData>): OpinionData -> Key {
    (d: OpinionData) => KeyIn(t, d)
  }

  ghost function View(db: Db): Register {
    MapOf(db.opinions, Naming(db.statements))
  }

  /** A signer's row is the row of the one statement that names the key. */
  lemma SignerRowIs(d: StatementData, ar: Arity)
    requires GoodArity(ar) && Faithful(d, ar) && SignerOf(d).Some?
    ensures d == DataOf(SignerStatement(SignerOf(d).value))
  {
    hide DataOf, ReadContents, Acceptable;
    var s: Statement :| |s.entities| == ar(s.name) > 0 && Acceptable(s, ar) && d == DataOf(s);
    FaithfulReads(s, ar);
    assert s == SignerStatement(SignerOf(d).value);
  }

  lemma SignerIdIs(t: Table<StatementData>, ar: Arity, i: nat, j: nat)
    requires GoodArity(ar) && ValidStatements(t, ar)
    requires IsSignerRow(t, i) && IsSignerRow(t, j) && SignerOf(ById(t, i).value) == SignerOf(ById(t, j).value)
    ensures i == j
  {
    hide DataOf, SignerOf, Faithful, Increasing;
    SignerRowIs(ById(t, i).value, ar);
    SignerRowIs(ById(t, j).value, ar);
    assert Row(i, ById(t, i).value) in t && Row(j, ById(t, j).value) in t;
  }

  /** No two opinion rows share a key. */
  lemma KeysAreDistinct(db: Db, ar: Arity)
    requires GoodArity(ar) && ValidTables(db, ar)
    ensures DistinctKeys(db.opinions, Naming(db.statements))
  {
    hide DataOf, SignerOf, Faithful, Increasing;
    var t, f := db.statements, Naming(db.statements);
    forall o, p | o in db.opinions && p in db.opinions && f(o.data) == f(p.data) ensures o == p {
      SignerIdIs(t, ar, o.data.signerId, p.data.signerId);
      assert Row(o.data.statementId, ById(t, o.data.statementId).value) in t;
      UniqueIds(db.opinions);
    }
  }

  lemma KeyStays(t: Table<StatementData>, u: Table<StatementData>, d: OpinionData)
    requires ById(t, d.statementId).Some? && IsSignerRow(t, d.signerId)
    requires ById(u, d.statementId) == ById(t, d.statementId) && ById(u, d.signerId) == ById(t, d.signerId)
    ensures KeyIn(u, d) == KeyIn(t, d)
  {
    hide SignerOf, ById;
  }

  /** Storing statements moves no opinion. */
  lemma GrownView(db: Db, db': Db, ar: Arity)
    requires GoodArity(ar) && ValidTables(db, ar) && Grown(db, db')
    ensures View(db') == View(db)
  {
    hide MapOf, KeyIn, ById, SignerOf, DistinctKeys;
    KeysAreDistinct(db, ar);
    forall o | o in db.opinions ensures KeyIn(db'.statements, o.data) == KeyIn(db.statements, o.data) {
      KeyStays(db.statements, db'.statements, o.data);
    }
    MapAgree(db.opinions, Naming(db.statements), Naming(db'.statements));
  }

  /** Adding the row of a pair that has none adds its key to the view. */
  lemma AddedIsValid(db: Db, d: OpinionData)
    requires ValidOpinions(db)
    requires ById(db.statements, d.statementId).Some? && IsSignerRow(db.statements, d.signerId)
    requires forall o | o in db.opinions :: !(o.data.statementId == d.statementId && o.data.signerId == d.signerId)
    ensures ValidOpinions(db.(opinions := Insert(db.opinions, d)))
  {
    hide IsSignerRow, Increasing, ById, NextId, Insert;
    InsertKeeps(db.opinions, d);
    var os := Insert(db.opinions, d);
    forall o | o in os
      ensures ById(db.statements, o.data.statementId).Some? && IsSignerRow(db.statements, o.data.signerId)
    {
      if o !in db.opinions { assert o.data == d; }
    }
  }

  lemma InsertOpinion(db: Db, d: OpinionData, ar: Arity)
    requires GoodArity(ar) && ValidTables(db, ar)
    requires ById(db.statements, d.statementId).Some? && IsSignerRow(db.statements, d.signerId)
    requires forall o | o in db.opinions :: !(o.data.statementId == d.statementId && o.data.signerId == d.signerId)
    ensures var db' := db.(opinions := Insert(db.opinions, d));
            ValidTables(db', ar) && View(db') == View(db)[KeyIn(db.statements, d) := d.stored]
  {
    hide MapOf, KeyIn, ById, SignerOf, DistinctKeys, ValidStatements, Increasing;
    var db' := db.(opinions := Insert(db.opinions, d));
    var row := Row(NextId(db.opinions), d);
    InsertKeeps(db.opinions, d);
    AddedIsValid(db, d);
    hide ValidOpinions;
    KeysAreDistinct(db', ar);
    MapInsert(db.opinions, Naming(db.statements), row);
  }

  lemma KeepValid(db: Db, keep: Row<OpinionData> -> bool, ar: Arity)
    requires ValidTables(db, ar)
    ensures ValidTables(db.(opinions := Keep(db.opinions, keep)), ar)
  {
    hide ById, SignerOf, ValidStatements, Increasing, Keep;
    KeepIncreases(db.opinions, keep);
  }

  /** Removing a row removes its key from the view. */
  lemma RemoveOpinion(db: Db, row: Row<OpinionData>, ar: Arity)
    requires GoodArity(ar) && ValidTables(db, ar) && row in db.opinions
    ensures var db' := db.(opinions := DeleteOpinion(db.opinions, row.id));
            && ValidTables(db', ar)
            && (forall o :: o in db'.opinions <==> o in db.opinions && o != row)
            && View(db') == View(db) - {KeyIn(db.statements, row.data)}
  {
    hide MapOf, KeyIn, ValidStatements, ValidPrivateKeys, CacheConforms, Increasing, Keep;
    var db' := db.(opinions := DeleteOpinion(db.opinions, row.id));
    KeepValid(db, (r: Row<OpinionData>) => r.id != row.id, ar);
    UniqueIds(db.opinions);
    assert forall o :: o in db'.opinions <==> o in db.opinions && o != row;
    KeysAreDistinct(db, ar);
    MapWithout(db.opinions, db'.opinions, Naming(db.statements), row);
  }

  lemma MapWithout(os: Table<OpinionData>, rest: Table<OpinionData>, f: OpinionData -> Key, row: Row<OpinionData>)
    requires DistinctKeys(os, f) && row in os
    requires forall o :: o in rest <==> o in os && o != row
    ensures MapOf(rest, f) == MapOf(os, f) - {f(row.data)}
  {
    hide MapOf;
    MapRepresents(os, f);
    OnlyMap(MapOf(os, f) - {f(row.data)}, rest, f);
  }

  /* ---- persisting an opinion ---- */

  /** What is asked of an opinion given to the store: its signer's text reads back. */
  ghost predicate AcceptableOpinion(o: Opinion) {
    Printable(Signer(o.signer))
  }

  lemma SignerIsAcceptable(o: Opinion, ar: Arity)
    requires AcceptableOpinion(o)
    ensures Acceptable(SignerStatement(o.signer), ar)
    ensures SignerStatement(o.signer).entities != []
  {
  }

  lemma SignerRow(db: Db, id: nat, k: PublicKey, ar: Arity)
    requires Acceptable(SignerStatement(k), ar)
    requires ById(db.statements, id) == Some(DataOf(SignerStatement(k)))
    ensures IsSignerRow(db.statements, id) && SignerOf(ById(db.statements, id).value) == Some(k)
  {
    hide DataOf, SignerOf, Acceptable;
    RowMeans(SignerStatement(k), ar);
  }

  /** The entry an opinion about the row `statementId` stands for. */
  function EntryOf(t: Table<StatementData>, o: Opinion, statementId: nat): Entry
    requires ById(t, statementId).Some?
  {
    Entry(Key(ById(t, statementId).value.contents, o.signer), StoredOf(o.data, o.signature))
  }

  /** Writing an opinion row, seen without ids, writes a last-writer-wins register. */
  lemma WritePuts(db: Db, o: Opinion, d: OpinionData, ar: Arity)
    requires GoodArity(ar) && ValidTables(db, ar)
    requires ById(db.statements, d.statementId).Some? && IsSignerRow(db.statements, d.signerId)
    ensures var (db', r) := WriteOpinion(db, o, d);
            var e := Entry(KeyIn(db.statements, d), d.stored);
            && r.Done? && r.value.data == o
            && ValidTables(db', ar)
            && db' == db.(opinions := db'.opinions)
            && View(db') == Put(View(db), e)
            && (r.value.inserted <==> Takes(View(db), e))
  {
    hide View, KeyIn, ById, IsSignerRow, Insert, DeleteOpinion, PreviousOpinion, ValidTables, Older, NextId;
    var prev := PreviousOpinion(db.opinions, d.statementId, d.signerId);
    PreviousIs(db, d, ar);
    if prev.None? {
      Insertable(db, d);
      InsertOpinion(db, d, ar);
    } else if Older(prev.value.data.stored, d.stored) {
      ReplaceOpinion(db, prev.value, d, ar);
      Insertable(db.(opinions := DeleteOpinion(db.opinions, prev.value.id)), d);
    }
  }

  lemma Insertable(db: Db, d: OpinionData)
    requires ById(db.statements, d.statementId).Some? && IsSignerRow(db.statements, d.signerId)
    requires forall o | o in db.opinions :: !(o.data.statementId == d.statementId && o.data.signerId == d.signerId)
    ensures CanInsert(db, d)
  {
    hide SignerOf;
  }

  /** Deleting the previous row of the pair and inserting another overwrites the key. */
  lemma ReplaceOpinion(db: Db, prev: Row<OpinionData>, d: OpinionData, ar: Arity)
    requires GoodArity(ar) && ValidTables(db, ar)
    requires ById(db.statements, d.statementId).Some? && IsSignerRow(db.statements, d.signerId)
    requires PreviousOpinion(db.opinions, d.statementId, d.signerId) == Some(prev)
    ensures var db1 := db.(opinions := DeleteOpinion(db.opinions, prev.id));
            var db' := db1.(opinions := Insert(db1.opinions, d));
            && (forall o | o in db1.opinions :: !(o.data.statementId == d.statementId && o.data.signerId == d.signerId))
            && ValidTables(db', ar) && View(db') == View(db)[KeyIn(db.statements, d) := d.stored]
  {
    hide View, KeyIn, ById, IsSignerRow, Insert, DeleteOpinion, ValidStatements, ValidPrivateKeys, CacheConforms, NextId;
    PreviousPair(db, d);
    PreviousIs(db, d, ar);
    RemoveOpinion(db, prev, ar);
    PairIsUnique(db, prev);
    hide ValidOpinions, PreviousOpinion;
    InsertOpinion(db.(opinions := DeleteOpinion(db.opinions, prev.id)), d, ar);
  }

  lemma PreviousPair(db: Db, d: OpinionData)
    ensures var prev := PreviousOpinion(db.opinions, d.statementId, d.signerId);
            prev.Some? ==> prev.value.data.statementId == d.statementId && prev.value.data.signerId == d.signerId
  {
  }

  /** What persisting an opinion does to valid tables that hold a statement row for it and
      know a template for signers: nothing fails, nothing valid is lost, and seen without
      ids it writes a last-writer-wins register. It reports an old row exactly when an
      opinion that is not older was there. */
  lemma PersistOpinionPuts(db: Db, o: Opinion, statementId: nat, ar: Arity)
    requires GoodArity(ar) && ValidTables(db, ar) && AcceptableOpinion(o)
    requires ById(db.statements, statementId).Some?
    requires HasTemplate(db.templates, SignerStatement(o.signer))
    ensures var (db', r) := PersistOpinion(db, o, statementId);
            var e := EntryOf(db.statements, o, statementId);
            && r.Done? && r.value.data == o
            && ValidTables(db', ar)
            && (CacheCovers(db) ==> CacheCovers(db'))
            && (forall r | r in db.statements && Cached(db, r) :: Cached(db', r))
            && StatementsGrown(db, db')
            && View(db') == Put(View(db), e)
            && (r.value.inserted <==> Takes(View(db), e))
  {
    hide View, KeyIn, DataOf, SignerOf, ValidTables, Increasing, HasTemplate, PersistStatement,
      AcceptableOpinion, Acceptable, ById, WriteOpinion, CacheCovers;
    var s := SignerStatement(o.signer);
    SignerIsAcceptable(o, ar);
    PersistFindsOrInserts(db, s, ar);
    var (db1, signer) := PersistStatement(db, s);
    GrownView(db, db1, ar);
    SignerRow(db1, signer.value.id, o.signer, ar);
    var d := OpinionData(statementId, signer.value.id, StoredOf(o.data, o.signature));
    KeyOfPair(db1, d);
    WritePuts(db1, o, d, ar);
    CoversIgnoresOpinions(db1, WriteOpinion(db1, o, d).0.opinions);
  }

  /** The row whose id is reported is the one of the statement and the signer. */
  lemma ReportedRow(db: Db, o: Opinion, d: OpinionData, ar: Arity) returns (x: Row<OpinionData>)
    requires GoodArity(ar) && ValidTables(db, ar)
    requires WriteOpinion(db, o, d).1.Done?
    ensures var (db', r) := WriteOpinion(db, o, d);
            x in db'.opinions && x.id == r.value.id && x.data.statementId == d.statementId && x.data.signerId == d.signerId
  {
    hide ValidTables, ById, KeyIn, Insert, DeleteOpinion, IsSignerRow;
    var prev := PreviousOpinion(db.opinions, d.statementId, d.signerId);
    if prev.Some? && !Older(prev.value.data.stored, d.stored) {
      x := prev.value;
    } else {
      var os := if prev.Some? then DeleteOpinion(db.opinions, prev.value.id) else db.opinions;
      x := Row(NextId(os), d);
      assert x in Insert(os, d) by { InsertHolds(os, d); }
    }
  }

  lemma InsertHolds<T>(t: Table<T>, d: T)
    ensures Row(NextId(t), d) in Insert(t, d)
  {
  }

  lemma ReportedIsHeld(db: Db, o: Opinion, statementId: nat, ar: Arity)
    requires GoodArity(ar) && ValidTables(db, ar) && AcceptableOpinion(o)
    requires ById(db.statements, statementId).Some?
    requires HasTemplate(db.templates, SignerStatement(o.signer))
    ensures var (db', r) := PersistOpinion(db, o, statementId);
            var k := Key(ById(db.statements, statementId).value.contents, o.signer);
            && r.Done? && k in View(db')
            && exists x | x in db'.opinions :: x.id == r.value.id && KeyIn(db'.statements, x.data) == k && x.data.stored == View(db')[k]
  {
    hide View, KeyIn, DataOf, SignerOf, ValidTables, Increasing, HasTemplate, PersistStatement,
      AcceptableOpinion, Acceptable, ById, WriteOpinion, CacheCovers;
    PersistOpinionPuts(db, o, statementId, ar);
    var s := SignerStatement(o.signer);
    SignerIsAcceptable(o, ar);
    PersistFindsOrInserts(db, s, ar);
    var (db1, signer) := PersistStatement(db, s);
    SignerRow(db1, signer.value.id, o.signer, ar);
    var d := OpinionData(statementId, signer.value.id, StoredOf(o.data, o.signature));
    var x := ReportedRow(db1, o, d, ar);
    WritePuts(db1, o, d, ar);
    var db' := WriteOpinion(db1, o, d).0;
    KeyOfPair(db1, d);
    assert KeyIn(db'.statements, x.data) == KeyIn(db1.statements, d) by { SamePairSameKey(db1.statements, x.data, d); }
    RowIsInView(db', x, ar);
  }

  lemma SamePairSameKey(t: Table<StatementData>, c: OpinionData, d: OpinionData)
    requires c.statementId == d.statementId && c.signerId == d.signerId
    ensures KeyIn(t, c) == KeyIn(t, d)
  {
  }

  lemma RowIsInView(db: Db, x: Row<OpinionData>, ar: Arity)
    requires GoodArity(ar) && ValidTables(db, ar) && x in db.opinions
    ensures KeyIn(db.statements, x.data) in View(db) && View(db)[KeyIn(db.statements, x.data)] == x.data.stored
  {
    hide MapOf, ValidTables, KeyIn;
    KeysAreDistinct(db, ar);
    MapRepresents(db.opinions, Naming(db.statements));
  }

  /** One persisted opinion, by day and serial number: it takes the place of what its signer
      had on the statement, and is reported new, exactly if it is strictly newer or there was
      none; every other opinion stays what it was. The id reported is that of the row held. */
  lemma NewerOpinionWins(db: Db, o: Opinion, statementId: nat, ar: Arity)
    requires GoodArity(ar) && ValidTables(db, ar) && AcceptableOpinion(o)
    requires ById(db.statements, statementId).Some?
    requires HasTemplate(db.templates, SignerStatement(o.signer))
    ensures var (db', r) := PersistOpinion(db, o, statementId);
            var (v, v', k) := (View(db), View(db'), Key(ById(db.statements, statementId).value.contents, o.signer));
            && r.Done? && v'.Keys == v.Keys + {k}
            && (forall l | l in v && l != k :: v'[l] == v[l])
            && (if k in v && 256 * o.data.date + o.data.serial <= 256 * v[k].date + v[k].serial
                then !r.value.inserted && v'[k] == v[k]
                else r.value.inserted && v'[k] == Stored(o.data.date, o.data.valid, o.data.serial, o.data.certainty, o.signature))
            && exists x | x in db'.opinions :: x.id == r.value.id && KeyIn(db'.statements, x.data) == k && x.data.stored == v'[k]
  {
    hide View, ValidTables, HasTemplate, PersistOpinion, AcceptableOpinion, ById, CacheCovers, StatementsGrown, KeyIn;
    PersistOpinionPuts(db, o, statementId, ar);
    ReportedIsHeld(db, o, statementId, ar);
    var k := Key(ById(db.statements, statementId).value.contents, o.signer);
    if k in View(db) { OlderIsLess(View(db)[k], StoredOf(o.data, o.signature)); }
  }

  lemma CoversIgnoresOpinions(db: Db, os: Table<OpinionData>)
    ensures CacheCovers(db.(opinions := os)) == CacheCovers(db)
    ensures forall r :: Cached(db.(opinions := os), r) == Cached(db, r)
  {
    hide SignerOf, TemplateOf;
  }

  /** Statement rows stay, and more may follow. */
  ghost predicate StatementsGrown(db: Db, db': Db) {
    && (forall r | r in db.statements :: r in db'.statements)
    && (forall id | ById(db.statements, id).Some? :: ById(db'.statements, id) == ById(db.statements, id))
    && db'.privateKeys == db.privateKeys
  }

  lemma KeyOfPair(db: Db, d: OpinionData)
    requires ById(db.statements, d.statementId).Some? && IsSignerRow(db.statements, d.signerId)
    ensures KeyIn(db.statements, d) ==
            Key(ById(db.statements, d.statementId).value.contents, SignerOf(ById(db.statements, d.signerId).value).value)
  {
  }

  /** The row fetched for a pair is what the view holds under the pair's key. */
  lemma PreviousIs(db: Db, d: OpinionData, ar: Arity)
    requires GoodArity(ar) && ValidTables(db, ar)
    requires ById(db.statements, d.statementId).Some? && IsSignerRow(db.statements, d.signerId)
    ensures var prev := PreviousOpinion(db.opinions, d.statementId, d.signerId);
            var k := KeyIn(db.statements, d);
            if prev.None? then k !in View(db) && forall o | o in db.opinions :: !(o.data.statementId == d.statementId && o.data.signerId == d.signerId)
            else
              && prev.value in db.opinions
              && KeyIn(db.statements, prev.value.data) == k && k in View(db) && View(db)[k] == prev.value.data.stored
  {
    hide MapOf, DataOf, SignerOf, Faithful, Increasing, ById;
    var t, f := db.statements, Naming(db.statements);
    KeysAreDistinct(db, ar);
    MapRepresents(db.opinions, f);
    var prev := PreviousOpinion(db.opinions, d.statementId, d.signerId);
    if prev.None? && KeyIn(t, d) in View(db) {
      var o :| o in db.opinions && f(o.data) == KeyIn(t, d);
      SameKeySamePair(t, o.data, d, ar);
    }
  }

  lemma SameKeySamePair(t: Table<StatementData>, c: OpinionData, d: OpinionData, ar: Arity)
    requires GoodArity(ar) && ValidStatements(t, ar)
    requires ById(t, c.statementId).Some? && IsSignerRow(t, c.signerId)
    requires ById(t, d.statementId).Some? && IsSignerRow(t, d.signerId)
    requires KeyIn(t, c) == KeyIn(t, d)
    ensures c.statementId == d.statementId && c.signerId == d.signerId
  {
    hide DataOf, SignerOf, Faithful, Increasing;
    SignerIdIs(t, ar, c.signerId, d.signerId);
    assert Row(c.statementId, ById(t, c.statementId).value) in t;
  }

  lemma PairIsUnique(db: Db, row: Row<OpinionData>)
    requires ValidOpinions(db) && row in db.opinions
    ensures forall o | o in db.opinions && o != row ::
              !(o.data.statementId == row.data.statementId && o.data.signerId == row.data.signerId)
  {
    hide SignerOf, ById;
    UniqueIds(db.opinions);
  }
}
