/** When a response fails: the exact condition on its statements and the templates known. */
module Refusals {
  import opened Entities
  import opened Options
  import opened Opinions
  import opened Tables
  import opened Store
  import opened StoreInvariants
  import opened Registers
  import opened Views
  import opened Merging

  /** A template among these statements fits. */
  predicate Brings(list: seq<SignedStatement>, x: Statement) {
    exists s | s in list :: IsTemplateStatement(s.statement) && Matches(x, s.statement.entities[0].template)
  }

  /** Every statement finds a template when its turn comes. */
  ghost predicate Accepted(db: Db, list: seq<SignedStatement>) {
    forall k | 0 <= k < |list| :: HasTemplate(Merge(db, list[..k]).0.templates, list[k].statement)
  }

  predicate NoTemplates(list: seq<SignedStatement>) {
    forall s | s in list :: !IsTemplateStatement(s.statement)
  }

  /** The template cache says what the table says. It stays so until a cleanup deletes a
      template row, which leaves the row's template in the cache. */
  ghost predicate CacheIsExact(db: Db) {
    forall id | id in db.templates ::
      exists r | r in db.statements :: r.id == id && TemplateOf(r.data) == Some(db.templates[id])
  }

  /* ---- what is known after some statements ---- */

  lemma PersistTemplates(db: Db, s: Statement, ar: Arity)
    requires GoodArity(ar) && CacheConforms(db, ar)
    ensures var templates := PersistStatement(db, s).0.templates;
            if HasTemplate(db.templates, s) && IsTemplateStatement(s) && PersistStatement(db, s).1.Done? then
              templates == db.templates[PersistStatement(db, s).1.value.id := s.entities[0].template]
            else templates == db.templates
  {
    hide Select, Violates, HasTemplate, ContentsOf, DataOf;
    if HasTemplate(db.templates, s) { MatchedArity(db, s, ar); }
  }

  lemma {:induction false} OpinionsKeepTemplates(db: Db, os: seq<Opinion>, id: nat)
    ensures PersistOpinions(db, os, id).0.templates == db.templates
    decreases |os|
  {
    hide HasTemplate, Select, Violates, EntityText, CanInsert, PreviousOpinion;
    if os != [] {
      SignerKeepsTemplates(db, os[0]);
      hide PersistOpinion;
      OpinionsKeepTemplates(PersistOpinion(db, os[0], id).0, os[1..], id);
    }
  }

  lemma SignerKeepsTemplates(db: Db, o: Opinion)
    ensures forall id :: PersistOpinion(db, o, id).0.templates == db.templates
  {
    hide HasTemplate, Select, Violates, ContentsOf, DataOf, CanInsert, PreviousOpinion;
  }

  lemma SignedTemplates(db: Db, s: SignedStatement, x: Statement, ar: Arity)
    requires GoodArity(ar) && Valid(db, ar) && KnowsSigners(db) && AcceptableSigned(s, ar)
    requires HasTemplate(db.templates, s.statement)
    ensures var db' := PersistSigned(db, s).0;
            && (!IsTemplateStatement(s.statement) ==> db'.templates == db.templates)
            && (HasTemplate(db'.templates, x) ==> HasTemplate(db.templates, x) || Brings([s], x))
            && (TemplateStored(db, x) || Brings([s], x) ==> TemplateStored(db', x))
  {
    hide View, ValidTables, CacheCovers, DataOf, PersistStatement, PersistOpinions, AcceptableOpinion, Acceptable,
      TemplateOf, Matches, Put, PutAll, EntriesOf, StatementsGrown, IsStored;
    SignedPuts(db, s, ar);
    var db' := PersistSigned(db, s).0;
    KnowledgeStays(db, db');
    ConformingCache(db, ar);
    PersistTemplates(db, s.statement, ar);
    var (db1, r) := PersistStatement(db, s.statement);
    if r.Done? { OpinionsKeepTemplates(db1, s.opinions, r.value.id); }
    assert s in [s];
    if Brings([s], x) {
      StoredFits(db', s.statement, x, ar);
    }
  }

  lemma ConformingCache(db: Db, ar: Arity)
    requires ValidTables(db, ar)
    ensures CacheConforms(db, ar)
  {
  }

  /** A stored template statement is a template stored. */
  lemma StoredFits(db: Db, s: Statement, x: Statement, ar: Arity)
    requires IsStored(db, s) && Acceptable(s, ar) && IsTemplateStatement(s) && Matches(x, s.entities[0].template)
    ensures TemplateStored(db, x)
  {
    hide DataOf, TemplateOf, Matches, Acceptable;
    RowMeans(s, ar);
  }

  /** What is known after a whole list is what was known and what the list brings; a cached
      template that no row has any more may be lost on the way. */
  lemma {:induction false} MergedTemplates(db: Db, list: seq<SignedStatement>, x: Statement, ar: Arity)
    requires GoodArity(ar) && Valid(db, ar) && KnowsSigners(db)
    requires forall s | s in list :: AcceptableSigned(s, ar)
    requires Merge(db, list).1.Done?
    ensures var db' := Merge(db, list).0;
            && Valid(db', ar)
            && (NoTemplates(list) ==> db'.templates == db.templates)
            && (HasTemplate(db'.templates, x) ==> HasTemplate(db.templates, x) || Brings(list, x))
            && (TemplateStored(db, x) || Brings(list, x) ==> TemplateStored(db', x))
    decreases |list|
  {
    hide View, PersistSigned, Valid, HasTemplate, AcceptableSigned, EntriesOf, Put, PutAll, StatementsGrown, TemplateStored,
      KnowsSigners, IsStored, Matches, IsTemplateStatement;
    if list != [] {
      var s := list[0];
      SignedPuts(db, s, ar);
      SignedTemplates(db, s, x, ar);
      var db1 := PersistSigned(db, s).0;
      KnowledgeStays(db, db1);
      MergedTemplates(db1, list[1..], x, ar);
      BringsMore(list, x);
    }
  }

  lemma BringsMore(list: seq<SignedStatement>, x: Statement)
    requires list != []
    ensures Brings(list, x) <==> Brings([list[0]], x) || Brings(list[1..], x)
    ensures NoTemplates(list) <==> !IsTemplateStatement(list[0].statement) && NoTemplates(list[1..])
  {
    hide Matches, IsTemplateStatement;
    assert forall s :: s in list <==> s == list[0] || s in list[1..];
  }

  /* ---- when a delivery fails ---- */

  /** A delivery succeeds if and only if every statement finds a template in its turn. */
  lemma {:induction false} DoneIsAccepted(db: Db, list: seq<SignedStatement>, ar: Arity)
    requires GoodArity(ar) && Valid(db, ar) && KnowsSigners(db)
    requires forall s | s in list :: AcceptableSigned(s, ar)
    ensures Merge(db, list).1.Done? <==> Accepted(db, list)
    ensures Merge(db, list).1.Done? || Merge(db, list).1.Panicked?
    decreases |list|
  {
    hide View, PersistSigned, Valid, HasTemplate, AcceptableSigned, EntriesOf, PutAll, StatementsGrown, KnowsSigners,
      IsStored;
    if list != [] {
      var s := list[0];
      SignedPuts(db, s, ar);
      assert list[..0] == [];
      if HasTemplate(db.templates, s.statement) {
        var db1 := PersistSigned(db, s).0;
        KnowledgeStays(db, db1);
        DoneIsAccepted(db1, list[1..], ar);
        AcceptedStep(db, list);
      }
    }
  }

  lemma AcceptedStep(db: Db, list: seq<SignedStatement>)
    requires list != [] && PersistSigned(db, list[0]).1.Done? && HasTemplate(db.templates, list[0].statement)
    ensures Accepted(db, list) <==> Accepted(PersistSigned(db, list[0]).0, list[1..])
  {
    hide PersistSigned, HasTemplate;
    var db1, rest := PersistSigned(db, list[0]).0, list[1..];
    forall k | 0 < k < |list| ensures Merge(db, list[..k]).0 == Merge(db1, rest[..k - 1]).0 && list[k] == rest[k - 1] {
      assert list[..k][0] == list[0] && list[..k][1..] == rest[..k - 1];
    }
    if Accepted(db, list) {
      forall k | 0 <= k < |rest| ensures HasTemplate(Merge(db1, rest[..k]).0.templates, rest[k].statement) {
        assert rest[k] == list[k + 1] && Merge(db, list[..k + 1]).0 == Merge(db1, rest[..k]).0;
      }
    }
    if Accepted(db1, rest) {
      forall k | 0 <= k < |list| ensures HasTemplate(Merge(db, list[..k]).0.templates, list[k].statement) {
        if k == 0 { assert list[..0] == []; }
      }
    }
  }

  /** The template that a statement can count on: one known before, or one brought earlier. */
  ghost predicate Foreseen(db: Db, list: seq<SignedStatement>, k: nat)
    requires k < |list|
  {
    HasTemplate(db.templates, list[k].statement) || Brings(list[..k], list[k].statement)
  }

  /** The same, of stored templates only. */
  ghost predicate Assured(db: Db, list: seq<SignedStatement>, k: nat)
    requires k < |list|
  {
    TemplateStored(db, list[k].statement) || Brings(list[..k], list[k].statement)
  }

  /** What can be said before a delivery: it succeeds if every statement has a stored template
      or one brought earlier in the list, and only if every statement has a cached template
      or one brought earlier. */
  lemma {:induction false} DeliveryBounds(db: Db, list: seq<SignedStatement>, ar: Arity)
    requires GoodArity(ar) && Valid(db, ar) && KnowsSigners(db)
    requires forall s | s in list :: AcceptableSigned(s, ar)
    ensures (forall k | 0 <= k < |list| :: Assured(db, list, k)) ==> Merge(db, list).1.Done?
    ensures Merge(db, list).1.Done? ==> forall k | 0 <= k < |list| :: Foreseen(db, list, k)
  {
    hide Valid, HasTemplate, TemplateStored, AcceptableSigned, KnowsSigners, Brings, Merge;
    DoneIsAccepted(db, list, ar);
    if Merge(db, list).1.Done? {
      forall k | 0 <= k < |list| ensures Foreseen(db, list, k) {
        PrefixDone(db, list, k, ar);
        MergedTemplates(db, list[..k], list[k].statement, ar);
      }
    }
    if forall k | 0 <= k < |list| :: Assured(db, list, k) {
      AssuredIsDone(db, list, |list|, ar);
      assert list[..|list|] == list;
    }
  }

  lemma PrefixDone(db: Db, list: seq<SignedStatement>, k: nat, ar: Arity)
    requires GoodArity(ar) && Valid(db, ar) && KnowsSigners(db) && k <= |list|
    requires forall s | s in list :: AcceptableSigned(s, ar)
    requires Accepted(db, list)
    ensures Merge(db, list[..k]).1.Done?
  {
    hide Valid, HasTemplate, AcceptableSigned, KnowsSigners, Merge;
    assert forall j | 0 <= j < k :: list[..k][..j] == list[..j];
    DoneIsAccepted(db, list[..k], ar);
  }

  lemma {:induction false} AssuredIsDone(db: Db, list: seq<SignedStatement>, k: nat, ar: Arity)
    requires GoodArity(ar) && Valid(db, ar) && KnowsSigners(db) && k <= |list|
    requires forall s | s in list :: AcceptableSigned(s, ar)
    requires forall j | 0 <= j < |list| :: Assured(db, list, j)
    ensures Merge(db, list[..k]).1.Done?
    decreases k
  {
    hide Valid, HasTemplate, TemplateStored, AcceptableSigned, KnowsSigners, Brings, Merge;
    forall j | 0 <= j < k ensures HasTemplate(Merge(db, list[..j]).0.templates, list[j].statement) {
      AssuredIsDone(db, list, j, ar);
      assert Assured(db, list, j);
      MergedTemplates(db, list[..j], list[j].statement, ar);
      ValidCovers(Merge(db, list[..j]).0, ar);
      StoredIsKnown(Merge(db, list[..j]).0, list[j].statement);
    }
    assert forall j | 0 <= j < k :: list[..k][..j] == list[..j];
    DoneIsAccepted(db, list[..k], ar);
  }

  /** A list that brings no template is taken if and only if every statement in it has a
      known template. */
  lemma {:induction false} PlainDelivery(db: Db, list: seq<SignedStatement>, ar: Arity)
    requires GoodArity(ar) && Valid(db, ar) && KnowsSigners(db)
    requires forall s | s in list :: AcceptableSigned(s, ar)
    requires NoTemplates(list)
    ensures Merge(db, list).1.Done? <==> forall s | s in list :: HasTemplate(db.templates, s.statement)
    decreases |list|
  {
    hide View, PersistSigned, Valid, HasTemplate, AcceptableSigned, EntriesOf, Put, PutAll, StatementsGrown, KnowsSigners,
      IsStored, Matches, IsTemplateStatement;
    if list != [] {
      var s := list[0];
      SignedPuts(db, s, ar);
      if HasTemplate(db.templates, s.statement) {
        SignedTemplates(db, s, s.statement, ar);
        var db1 := PersistSigned(db, s).0;
        KnowledgeStays(db, db1);
        PlainDelivery(db1, list[1..], ar);
        assert forall x :: x in list <==> x == s || x in list[1..];
      }
    }
  }

  /** With an exact cache nothing is left open: any list is taken if and only if every
      statement has a known template or one brought earlier in the list. */
  lemma ExactDelivery(db: Db, list: seq<SignedStatement>, ar: Arity)
    requires GoodArity(ar) && Valid(db, ar) && KnowsSigners(db) && CacheIsExact(db)
    requires forall s | s in list :: AcceptableSigned(s, ar)
    ensures Merge(db, list).1.Done? <==> forall k | 0 <= k < |list| :: Foreseen(db, list, k)
  {
    hide Valid, CacheIsExact, HasTemplate, TemplateStored, AcceptableSigned, KnowsSigners, Brings, Merge;
    DeliveryBounds(db, list, ar);
    forall k | 0 <= k < |list| ensures Foreseen(db, list, k) ==> Assured(db, list, k) {
      if HasTemplate(db.templates, list[k].statement) { KnownIsStored(db, list[k].statement); }
    }
  }

  lemma KnownIsStored(db: Db, s: Statement)
    requires CacheIsExact(db) && HasTemplate(db.templates, s)
    ensures TemplateStored(db, s)
  {
    hide TemplateOf, Matches;
    if !IsTemplateStatement(s) {
      var id :| id in db.templates && Matches(s, db.templates[id]);
      var r :| r in db.statements && r.id == id && TemplateOf(r.data) == Some(db.templates[id]);
    }
  }

  /* ---- the cache stays exact ---- */

  lemma PersistKeepsExact(db: Db, s: Statement, ar: Arity)
    requires GoodArity(ar) && ValidTables(db, ar) && Acceptable(s, ar) && CacheIsExact(db)
    ensures CacheIsExact(PersistStatement(db, s).0)
  {
    hide View, ValidTables, DataOf, PersistStatement, HasTemplate, Acceptable, TemplateOf, SignerOf;
    PersistFindsOrInserts(db, s, ar);
    ConformingCache(db, ar);
    PersistTemplates(db, s, ar);
    var (db', r) := PersistStatement(db, s);
    if HasTemplate(db.templates, s) {
      MatchedArity(db, s, ar);
      RowMeans(s, ar);
      var row := Row(r.value.id, DataOf(s));
      assert row in db'.statements;
      forall id | id in db'.templates
        ensures exists q | q in db'.statements :: q.id == id && TemplateOf(q.data) == Some(db'.templates[id])
      {
        if IsTemplateStatement(s) && id == r.value.id { assert TemplateOf(row.data) == Some(db'.templates[id]); }
      }
    }
  }

  lemma OpinionKeepsExact(db: Db, o: Opinion, statementId: nat, ar: Arity)
    requires GoodArity(ar) && ValidTables(db, ar) && AcceptableOpinion(o) && CacheIsExact(db)
    ensures CacheIsExact(PersistOpinion(db, o, statementId).0)
  {
    hide ValidTables, PersistStatement, Acceptable, CanInsert, PreviousOpinion, TemplateOf;
    SignerIsAcceptable(o, ar);
    PersistKeepsExact(db, SignerStatement(o.signer), ar);
  }

  lemma {:induction false} OpinionsKeepExact(db: Db, os: seq<Opinion>, id: nat, ar: Arity)
    requires GoodArity(ar) && Valid(db, ar) && KnowsSigners(db) && CacheIsExact(db)
    requires ById(db.statements, id).Some? && forall o | o in os :: AcceptableOpinion(o)
    ensures CacheIsExact(PersistOpinions(db, os, id).0)
    decreases |os|
  {
    hide View, PersistOpinion, ValidTables, CacheCovers, HasTemplate, AcceptableOpinion, Put, ById, TemplateOf, CacheIsExact;
    if os != [] {
      SignersHaveTemplate(db, os[0].signer);
      PersistOpinionPuts(db, os[0], id, ar);
      var db1 := PersistOpinion(db, os[0], id).0;
      OpinionKeepsExact(db, os[0], id, ar);
      KnowledgeStays(db, db1);
      OpinionsKeepExact(db1, os[1..], id, ar);
    }
  }

  lemma SignedKeepsExact(db: Db, s: SignedStatement, ar: Arity)
    requires GoodArity(ar) && Valid(db, ar) && KnowsSigners(db) && AcceptableSigned(s, ar) && CacheIsExact(db)
    ensures CacheIsExact(PersistSigned(db, s).0)
  {
    hide View, DataOf, PersistStatement, PersistOpinions, ValidTables, CacheCovers, HasTemplate, AcceptableOpinion,
      Acceptable, ById, TemplateOf, CacheIsExact;
    PersistFindsOrInserts(db, s.statement, ar);
    PersistKeepsExact(db, s.statement, ar);
    var (db1, r) := PersistStatement(db, s.statement);
    if r.Done? {
      GrownIsGrown(db, db1);
      KnowledgeStays(db, db1);
      OpinionsKeepExact(db1, s.opinions, r.value.id, ar);
    }
  }

  lemma GrownIsGrown(db: Db, db': Db)
    requires Grown(db, db')
    ensures StatementsGrown(db, db')
  {
  }

  /** No delivery makes the cache inexact. */
  lemma {:induction false} MergeKeepsExact(db: Db, list: seq<SignedStatement>, ar: Arity)
    requires GoodArity(ar) && Valid(db, ar) && KnowsSigners(db) && CacheIsExact(db)
    requires forall s | s in list :: AcceptableSigned(s, ar)
    ensures CacheIsExact(Merge(db, list).0)
    decreases |list|
  {
    hide View, PersistSigned, Valid, HasTemplate, AcceptableSigned, EntriesOf, PutAll, StatementsGrown, KnowsSigners,
      IsStored, CacheIsExact;
    if list != [] {
      SignedPuts(db, list[0], ar);
      SignedKeepsExact(db, list[0], ar);
      var db1 := PersistSigned(db, list[0]).0;
      KnowledgeStays(db, db1);
      MergeKeepsExact(db1, list[1..], ar);
    }
  }
}
