/** Merging what the network delivers: the store's view after a delivery is the register
    after the delivered entries, whatever ids the rows got. */
module Merging {
  import opened Entities
  import opened Options
  import opened Opinions
  import opened Tables
  import opened Store
  import opened StoreInvariants
  import opened Registers
  import opened Views

  const SIGNER_TEMPLATE := Template("signer", [[SignerType]])

  /** The template for signers is stored. */
  ghost predicate KnowsSigners(db: Db) {
    exists r | r in db.statements :: TemplateOf(r.data) == Some(SIGNER_TEMPLATE)
  }

  /** A stored template fits the statement, or it needs none. */
  ghost predicate TemplateStored(db: Db, s: Statement) {
    IsTemplateStatement(s) || exists r | r in db.statements :: TemplateOf(r.data).Some? && Matches(s, TemplateOf(r.data).value)
  }

  lemma StoredIsKnown(db: Db, s: Statement)
    requires CacheCovers(db) && TemplateStored(db, s)
    ensures HasTemplate(db.templates, s)
  {
    hide TemplateOf, SignerOf, Matches;
    if !IsTemplateStatement(s) {
      var r :| r in db.statements && TemplateOf(r.data).Some? && Matches(s, TemplateOf(r.data).value);
      assert db.templates[r.id] == TemplateOf(r.data).value;
    }
  }

  lemma SignersHaveTemplate(db: Db, k: PublicKey)
    requires CacheCovers(db) && KnowsSigners(db)
    ensures HasTemplate(db.templates, SignerStatement(k))
  {
    hide TemplateOf, SignerOf;
    var s := SignerStatement(k);
    assert TypeOf(Signer(k)) in [SignerType];
    assert Matches(s, SIGNER_TEMPLATE);
    StoredIsKnown(db, s);
  }

  /** The entries a delivery carries. */
  function EntriesOfOpinions(c: Contents, os: seq<Opinion>): seq<Entry> {
    if os == [] then []
    else [Entry(Key(c, os[0].signer), StoredOf(os[0].data, os[0].signature))] + EntriesOfOpinions(c, os[1..])
  }

  function EntriesOf(s: SignedStatement): seq<Entry> {
    if s.statement.entities == [] then [] else EntriesOfOpinions(ContentsOf(s.statement), s.opinions)
  }

  function Entries(list: seq<SignedStatement>): seq<Entry> {
    if list == [] then [] else EntriesOf(list[0]) + Entries(list[1..])
  }

  ghost predicate AcceptableSigned(s: SignedStatement, ar: Arity) {
    && s.statement.entities != [] && Acceptable(s.statement, ar)
    && forall o | o in s.opinions :: AcceptableOpinion(o)
  }

  lemma GrownIsTransitive(a: Db, b: Db, c: Db)
    requires StatementsGrown(a, b) && StatementsGrown(b, c)
    ensures StatementsGrown(a, c)
  {
    hide ById;
  }

  lemma KnowledgeStays(a: Db, b: Db)
    requires StatementsGrown(a, b)
    ensures KnowsSigners(a) ==> KnowsSigners(b)
    ensures forall s | TemplateStored(a, s) :: TemplateStored(b, s)
  {
    hide ById, TemplateOf, Matches;
  }

  lemma {:induction false} PutAllSplit(reg: Register, es: seq<Entry>, fs: seq<Entry>)
    ensures PutAll(reg, es + fs) == PutAll(PutAll(reg, es), fs)
    decreases |es|
  {
    if es == [] {
      assert es + fs == fs;
    } else {
      PutAllSplit(Put(reg, es[0]), es[1..], fs);
      assert (es + fs)[1..] == es[1..] + fs;
    }
  }

  lemma {:induction false} OpinionsPut(db: Db, os: seq<Opinion>, id: nat, ar: Arity)
    requires GoodArity(ar) && Valid(db, ar) && KnowsSigners(db)
    requires ById(db.statements, id).Some?
    requires forall o | o in os :: AcceptableOpinion(o)
    ensures var (db', r) := PersistOpinions(db, os, id);
            && r.Done? && Valid(db', ar) && StatementsGrown(db, db')
            && View(db') == PutAll(View(db), EntriesOfOpinions(ById(db.statements, id).value.contents, os))
    decreases |os|
  {
    hide View, PersistOpinion, ValidTables, CacheCovers, HasTemplate, AcceptableOpinion, Put, ById, TemplateOf;
    if os != [] {
      SignersHaveTemplate(db, os[0].signer);
      PersistOpinionPuts(db, os[0], id, ar);
      var db1 := PersistOpinion(db, os[0], id).0;
      OpinionsPut(db1, os[1..], id, ar);
      GrownIsTransitive(db, db1, PersistOpinions(db, os, id).0);
    }
  }

  /** The statement has its row. */
  ghost predicate IsStored(db: Db, s: Statement) {
    s.entities != [] && exists r | r in db.statements :: r.data == DataOf(s)
  }

  lemma StoredSurvives(a: Db, b: Db, s: Statement)
    requires StatementsGrown(a, b) && IsStored(a, s)
    ensures IsStored(b, s)
  {
    hide DataOf, ById;
  }

  lemma PersistStores(db: Db, id: nat, s: Statement)
    requires s.entities != [] && ById(db.statements, id) == Some(DataOf(s))
    ensures IsStored(db, s)
  {
    hide DataOf;
    assert Row(id, DataOf(s)) in db.statements;
  }

  /** One signed statement: refused without a template, and otherwise it is stored and every
      one of its opinions is written. */
  lemma SignedPuts(db: Db, s: SignedStatement, ar: Arity)
    requires GoodArity(ar) && Valid(db, ar) && KnowsSigners(db) && AcceptableSigned(s, ar)
    ensures var (db', r) := PersistSigned(db, s);
            && Valid(db', ar) && StatementsGrown(db, db')
            && (if HasTemplate(db.templates, s.statement)
                then r.Done? && IsStored(db', s.statement) && View(db') == PutAll(View(db), EntriesOf(s))
                else r == NoTemplate && db' == db)
  {
    hide View, DataOf, PersistStatement, PersistOpinions, ValidTables, CacheCovers, HasTemplate,
      AcceptableOpinion, Acceptable, ById, TemplateOf, IsStored;
    PersistFindsOrInserts(db, s.statement, ar);
    var (db1, r) := PersistStatement(db, s.statement);
    if r.Done? {
      GrownView(db, db1, ar);
      ContentsOfData(s.statement);
      OpinionsPut(db1, s.opinions, r.value.id, ar);
      GrownIsTransitive(db, db1, PersistSigned(db, s).0);
      PersistStores(db1, r.value.id, s.statement);
      StoredSurvives(db1, PersistSigned(db, s).0, s.statement);
    }
  }

  lemma NothingGrown(db: Db)
    ensures StatementsGrown(db, db)
  {
  }

  lemma ValidCovers(db: Db, ar: Arity)
    requires Valid(db, ar)
    ensures CacheCovers(db)
  {
  }

  /** A whole delivery: what it writes if it is not stopped, which `Refusals` says when. */
  lemma {:induction false} MergePuts(db: Db, list: seq<SignedStatement>, ar: Arity)
    requires GoodArity(ar) && Valid(db, ar) && KnowsSigners(db)
    requires forall s | s in list :: AcceptableSigned(s, ar)
    ensures var (db', r) := Merge(db, list);
            && Valid(db', ar) && StatementsGrown(db, db')
            && (r.Done? ==> View(db') == PutAll(View(db), Entries(list)) && forall s | s in list :: IsStored(db', s.statement))
            && ((forall s | s in list :: TemplateStored(db, s.statement)) ==> r.Done?)
    decreases |list|
  {
    hide View, PersistSigned, Valid, HasTemplate, Acceptable, AcceptableOpinion, EntriesOf, Put,
      StatementsGrown, TemplateStored, KnowsSigners, IsStored;
    if list == [] {
      NothingGrown(db);
    } else {
      var s := list[0];
      SignedPuts(db, s, ar);
      var (db1, r) := PersistSigned(db, s);
      ValidCovers(db, ar);
      if TemplateStored(db, s.statement) { StoredIsKnown(db, s.statement); }
      if r.Done? {
        KnowledgeStays(db, db1);
        MergePuts(db1, list[1..], ar);
        PutAllSplit(View(db), EntriesOf(s), Entries(list[1..]));
        GrownIsTransitive(db, db1, Merge(db, list).0);
        if Merge(db, list).1.Done? { StoredSurvives(db1, Merge(db, list).0, s.statement); }
      }
    }
  }

  /** Delivery order does not matter to the store: the same signed statements, merged in any
      order and any number of times, leave the same opinions behind. */
  lemma MergeOrderDoesNotMatter(
      db: Db, list: seq<SignedStatement>, other: seq<SignedStatement>, all: iset<Entry>, ar: Arity)
    requires GoodArity(ar) && Valid(db, ar) && KnowsSigners(db)
    requires forall s | s in list :: AcceptableSigned(s, ar) && TemplateStored(db, s.statement)
    requires forall s :: s in list <==> s in other
    requires TieFree(all) && Within(View(db), all) && forall e | e in Entries(list) :: e in all
    ensures Merge(db, list).1.Done? && Merge(db, other).1.Done?
    ensures View(Merge(db, list).0) == View(Merge(db, other).0)
  {
    hide View, Merge, Valid, Acceptable, AcceptableOpinion, TemplateStored, KnowsSigners, EntriesOf, TieFree,
      Within, StatementsGrown, PutAll;
    assert forall s | s in other :: s in list && AcceptableSigned(s, ar) && TemplateStored(db, s.statement);
    MergePuts(db, list, ar);
    MergePuts(db, other, ar);
    SameEntries(list, other);
    SameEntries(other, list);
    OrderDoesNotMatter(View(db), Entries(list), Entries(other), all);
  }

  lemma {:induction false} EntryInEntries(list: seq<SignedStatement>, s: SignedStatement, e: Entry)
    requires s in list && e in EntriesOf(s)
    ensures e in Entries(list)
  {
    if list[0] != s { EntryInEntries(list[1..], s, e); }
  }

  lemma {:induction false} SameEntries(list: seq<SignedStatement>, other: seq<SignedStatement>)
    requires forall s | s in list :: s in other
    ensures forall e | e in Entries(list) :: e in Entries(other)
  {
    if list != [] {
      SameEntries(list[1..], other);
      forall e | e in EntriesOf(list[0]) ensures e in Entries(other) {
        EntryInEntries(other, list[0], e);
      }
    }
  }

  /* ---- which statement rows a delivery adds ---- */

  /** A row that was there, one for a delivered statement, or one for a signer. */
  ghost predicate Accounted(db: Db, r: Row<StatementData>, list: seq<SignedStatement>) {
    || r in db.statements
    || r.data.contents.name == "signer"
    || exists s | s in list && s.statement.entities != [] :: r.data.contents == ContentsOf(s.statement)
  }

  lemma PersistAdds(db: Db, s: Statement)
    ensures forall r | r in PersistStatement(db, s).0.statements ::
              r in db.statements || (s.entities != [] && r.data.contents == ContentsOf(s))
  {
    hide HasTemplate, EntityText, Select, Violates;
  }

  lemma PersistOpinionAdds(db: Db, o: Opinion, id: nat)
    ensures forall r | r in PersistOpinion(db, o, id).0.statements :: r in db.statements || r.data.contents.name == "signer"
  {
    hide PersistStatement, EntityText, CanInsert, PreviousOpinion;
    PersistAdds(db, SignerStatement(o.signer));
  }

  lemma {:induction false} PersistOpinionsAdd(db: Db, os: seq<Opinion>, id: nat)
    ensures forall r | r in PersistOpinions(db, os, id).0.statements :: r in db.statements || r.data.contents.name == "signer"
    decreases |os|
  {
    hide PersistOpinion;
    if os != [] {
      PersistOpinionAdds(db, os[0], id);
      PersistOpinionsAdd(PersistOpinion(db, os[0], id).0, os[1..], id);
    }
  }

  lemma {:induction false} MergeAdds(db: Db, list: seq<SignedStatement>)
    ensures forall r | r in Merge(db, list).0.statements :: Accounted(db, r, list)
    decreases |list|
  {
    hide PersistStatement, PersistOpinions, ContentsOf;
    if list != [] {
      var s := list[0];
      PersistAdds(db, s.statement);
      var (db1, p) := PersistStatement(db, s.statement);
      if p.Done? { PersistOpinionsAdd(db1, s.opinions, p.value.id); }
      var db2 := PersistSigned(db, s).0;
      assert s in list;
      assert forall r | r in db2.statements :: Accounted(db, r, list);
      MergeAdds(db2, list[1..]);
      assert forall x | x in list[1..] :: x in list;
    }
  }
}
