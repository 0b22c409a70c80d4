/** Cleanup: what it keeps, that it is idempotent, and that it leaves nothing dangling. */
module Cleaning {
  import opened Options
  import opened Tables
  import opened Store
  import opened StoreInvariants
  import opened Registers
  import opened Views

  /** Dropping rows that nothing refers to keeps the tables valid. Caches may stay as they are. */
  lemma DropUnreferenced(db: Db, ar: Arity)
    requires GoodArity(ar) && ValidTables(db, ar)
    ensures var db' := CleanupStatements(db);
            && ValidTables(db', ar)
            && (CacheCovers(db) ==> CacheCovers(db'))
            && View(db') == View(db)
            && (forall r :: r in db'.statements <==> r in db.statements && Referenced(db, r.id))
            && (forall id | Referenced(db, id) :: ById(db'.statements, id) == ById(db.statements, id))
  {
    hide SignerOf, TemplateOf, Faithful, Increasing, MapOf, KeyIn, Keep, DistinctKeys;
    var keep := (r: Row<StatementData>) => Referenced(db, r.id);
    var db' := CleanupStatements(db);
    KeepIncreases(db.statements, keep);
    forall id | Referenced(db, id) ensures ById(db'.statements, id) == ById(db.statements, id) {
      KeepById(db.statements, keep, id);
    }
    forall o | o in db.opinions
      ensures Referenced(db, o.data.statementId) && Referenced(db, o.data.signerId)
    {
    }
    assert ValidTables(db', ar);
    KeysAreDistinct(db, ar);
    forall o | o in db.opinions ensures KeyIn(db'.statements, o.data) == KeyIn(db.statements, o.data) {
      KeyStays(db.statements, db'.statements, o.data);
    }
    MapAgree(db.opinions, Naming(db.statements), Naming(db'.statements));
  }

  /** A view without the expired opinions. */
  function Unexpired(v: Register, today: nat): Register {
    map k | k in v && !Expired(v[k], today) :: v[k]
  }

  lemma DropExpired(db: Db, today: nat, ar: Arity)
    requires GoodArity(ar) && ValidTables(db, ar)
    ensures var db' := CleanupOpinions(db, today);
            && ValidTables(db', ar)
            && (CacheCovers(db) ==> CacheCovers(db'))
            && View(db') == Unexpired(View(db), today)
            && (forall o :: o in db'.opinions <==> o in db.opinions && !Expired(o.data.stored, today))
  {
    hide SignerOf, TemplateOf, ValidStatements, ValidOpinions, ValidPrivateKeys, CacheConforms, MapOf, KeyIn, Keep;
    var keep := (r: Row<OpinionData>) => !Expired(r.data.stored, today);
    KeepValid(db, keep, ar);
    KeysAreDistinct(db, ar);
    var f := Naming(db.statements);
    MapRepresents(db.opinions, f);
    var m := Unexpired(MapOf(db.opinions, f), today);
    forall k | k in m ensures exists o | o in Keep(db.opinions, keep) :: f(o.data) == k {
      var o :| o in db.opinions && f(o.data) == k;
      assert o in Keep(db.opinions, keep);
    }
    OnlyMap(m, Keep(db.opinions, keep), f);
  }

  /** Cleanup keeps exactly the opinions of which today is no later than their date and the days
      they are valid, and the statements that they, their signers or the private key refer to; the store stays valid, caches included, so
      no reference dangles, and the private key's own row is still there. */
  lemma CleanupKeeps(db: Db, today: nat, ar: Arity)
    requires GoodArity(ar) && ValidTables(db, ar)
    ensures var db' := Cleanup(db, today);
            && ValidTables(db', ar)
            && (CacheCovers(db) ==> CacheCovers(db'))
            && View(db') == Unexpired(View(db), today)
            && db'.privateKeys == db.privateKeys
            && (forall k :: k in View(db') <==> k in View(db) && today <= View(db)[k].date + View(db)[k].valid)
            && (forall k | k in View(db') :: View(db')[k] == View(db)[k])
            && (forall o :: o in db'.opinions <==> o in db.opinions && today <= o.data.stored.date + o.data.stored.valid)
            && (forall r :: r in db'.statements <==> r in db.statements && Referenced(db', r.id))
            && (forall id | Referenced(db', id) :: ById(db'.statements, id) == ById(db.statements, id))
            && (forall p | p in db.privateKeys :: ById(db'.statements, p.signerId) == ById(db.statements, p.signerId) != None)
  {
    hide View, ValidStatements, ValidOpinions, CacheConforms, CacheCovers, SignerOf, Keep, ById;
    DropExpired(db, today, ar);
    var db1 := CleanupOpinions(db, today);
    DropUnreferenced(db1, ar);
    var db' := Cleanup(db, today);
    assert forall id :: Referenced(db', id) == Referenced(db1, id);
    forall p | p in db.privateKeys ensures Referenced(db', p.signerId) {
    }
  }

  /** On the same day a second cleanup changes nothing. */
  lemma CleanupIsIdempotent(db: Db, today: nat, ar: Arity)
    requires GoodArity(ar) && ValidTables(db, ar)
    ensures Cleanup(Cleanup(db, today), today) == Cleanup(db, today)
  {
    hide View, ValidTables, CacheCovers, ById, Keep;
    CleanupKeeps(db, today, ar);
    var db' := Cleanup(db, today);
    KeepAll(db'.opinions, (r: Row<OpinionData>) => !Expired(r.data.stored, today));
    assert CleanupOpinions(db', today) == db';
    KeepAll(db'.statements, (r: Row<StatementData>) => Referenced(db', r.id));
  }
}
