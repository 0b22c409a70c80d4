/** Connections of nodes that have lived: what the template request is for. Each node holds
    the other's templates afterwards, so that each can take what the other may send. */
module Connections {
  import opened Entities
  import opened Options
  import opened RoundTrip
  import opened Opinions
  import opened Store
  import opened StoreInvariants
  import opened Startup
  import opened Registers
  import opened Views
  import opened Merging
  import opened Refusals
  import opened TemplateReplies
  import opened SummaryMeaning
  import opened Protocol
  import opened Convergence
  import opened Node
  import opened Sessions
  import opened Lifetime
  import opened NewNodes
  import opened Handshake

  function About(e: Entity): Statement {
    Statement("template", [e])
  }

  /** This store would take every template row of the other. A row that holds a template is
      taken by any store; one named `template` about something else needs a template here. */
  ghost predicate TakesTemplates(to: Db, from: Db) {
    forall e | HoldsTemplate(from, e) :: TemplateStored(to, About(e))
  }

  /** Each takes the template rows of both. */
  ghost predicate TakeTemplates(a: Db, b: Db) {
    TakesTemplates(a, a) && TakesTemplates(a, b) && TakesTemplates(b, a) && TakesTemplates(b, b)
  }

  /** Every statement the store has an opinion on has a stored template. */
  ghost predicate UnderstandsItself(db: Db) {
    Understands(db, View(db).Keys)
  }

  /* ---- one answer ---- */

  /** Every entry of an answer is on a template row of the sender. */
  lemma AnswerIsOnTemplates(from: NodeState, day: U32, x: Entry, ar: Arity) returns (e: Entity)
    requires GoodArity(ar) && Healthy(from, ar)
    requires Answer(from, day).Some? && x in Entries(Answer(from, day).value)
    ensures HoldsTemplate(from.db, e) && Printable(e) && x.key.statement == ContentsOf(About(e))
  {
    hide View, Healthy, Answer, HoldsTemplate, ContentsOf, StatementText, SignedTemplate, Entries, EntriesOf, Printable;
    AnswerIsAcceptable(from, day, ar);
    var s := EntryFrom(Answer(from, day).value, x);
    e :| HoldsTemplate(from.db, e) && s == SignedTemplate(e, from.own.key, day);
    SignedTemplateIs(e, from.own.key, day);
    SignedTemplateEntry(e, from.own.key, day);
    assert e in s.statement.entities;
  }

  /** A stored template of the sender is brought by its answer. */
  lemma AnswerBrings(from: NodeState, day: U32, s: Statement, ar: Arity)
    requires GoodArity(ar) && Healthy(from, ar) && TemplateStored(from.db, s) && !IsTemplateStatement(s)
    ensures Answer(from, day).Some? && Brings(Answer(from, day).value, s)
  {
    hide Healthy, Answer, TemplateOf, IsTemplateRow, Matches, SignedTemplate;
    AnswerIsAcceptable(from, day, ar);
    var r :| r in from.db.statements && TemplateOf(r.data).Some? && Matches(s, TemplateOf(r.data).value);
    var e := TemplateEntity(TemplateOf(r.data).value);
    TemplateRowOf(r);
    assert HoldsTemplate(from.db, e);
    var x := SignedTemplate(e, from.own.key, day);
    SignedTemplateIs(e, from.own.key, day);
    assert x in Answer(from, day).value;
  }

  /** What is printed alike is the same template statement. */
  lemma SameContents(s: Statement, e: Entity)
    requires s.entities != [] && AllPrintable(s.entities) && Printable(e) && ContentsOf(s) == ContentsOf(About(e))
    ensures s == About(e)
  {
    hide ReadContents, EntityText, Printable;
    RowReadsBack(s);
    RowReadsBack(About(e));
  }

  /** Whatever template rows there are after an answer were there or are the sender's. */
  lemma AnswerAddsTemplates(from: NodeState, to: Db, day: U32, ar: Arity)
    requires GoodArity(ar) && Healthy(from, ar) && Answer(from, day).Some?
    ensures forall e | HoldsTemplate(Merge(to, Answer(from, day).value).0, e) :: HoldsTemplate(to, e) || HoldsTemplate(from.db, e)
  {
    hide Healthy, Answer, ContentsOf, Merge, ReadContents, SignedTemplate, AcceptableSigned;
    var list := Answer(from, day).value;
    MergeAdds(to, list);
    AnswerIsAcceptable(from, day, ar);
    forall e | HoldsTemplate(Merge(to, list).0, e) ensures HoldsTemplate(to, e) || HoldsTemplate(from.db, e) {
      var r :| r in Merge(to, list).0.statements && IsTemplateRow(r, e);
      assert Accounted(to, r, list);
      ReadName(r.data.contents);
      if r in to.statements {
        assert HoldsTemplate(to, e);
      } else {
        var s :| s in list && s.statement.entities != [] && r.data.contents == ContentsOf(s.statement);
        var f :| HoldsTemplate(from.db, f) && s == SignedTemplate(f, from.own.key, day);
        SignedTemplateIs(f, from.own.key, day);
        AcceptableReads(s, ar);
      }
    }
  }

  lemma AcceptableReads(s: SignedStatement, ar: Arity)
    requires AcceptableSigned(s, ar) && |s.statement.entities| == 1
    ensures ReadContents(ContentsOf(s.statement)) == Some(s.statement)
  {
    hide ReadContents, ContentsOf, Printable;
    RowReadsBack(s.statement);
  }

  /** Taking an answer never fails where its template rows are taken. Afterwards the receiver
      has a stored template for everything that it or the sender had one for, and opinions on
      nothing but what it had and the sender's template rows. */
  lemma AnswerIsTaken(from: NodeState, to: NodeState, day: U32, ar: Arity)
    requires GoodArity(ar) && Healthy(from, ar) && Healthy(to, ar) && Coherent(to) && TakesTemplates(to.db, from.db)
    ensures Answer(from, day).Some? && Take(to, Answer(from, day).value).Some?
    ensures var to' := Take(to, Answer(from, day).value).value;
            && Healthy(to', ar) && Sound(to', ar) && to'.own == to.own
            && View(to'.db) == PutAll(View(to.db), Entries(Answer(from, day).value))
            && (forall s | TemplateStored(to.db, s) || TemplateStored(from.db, s) :: TemplateStored(to'.db, s))
            && (forall e | HoldsTemplate(to'.db, e) :: HoldsTemplate(to.db, e) || HoldsTemplate(from.db, e))
  {
    hide View, Valid, KnowsSigners, Coherent, Sound, Answer, Take, HoldsTemplate, TemplateStored, AcceptableSigned,
      SignedTemplate, PutAll, Merge, StatementsGrown, Brings, Entries, HasTemplate;
    AnswerIsAcceptable(from, day, ar);
    var list := Answer(from, day).value;
    forall s | s in list ensures TemplateStored(to.db, s.statement) {
      var e :| HoldsTemplate(from.db, e) && s == SignedTemplate(e, from.own.key, day);
      SignedTemplateIs(e, from.own.key, day);
    }
    TakePuts(to, list, ar);
    AnswerAddsTemplates(from, to.db, day, ar);
    forall s | TemplateStored(to.db, s) || TemplateStored(from.db, s) ensures TemplateStored(Merge(to.db, list).0, s) {
      TemplatesAreTaken(from, to, day, s, ar);
    }
  }

  lemma TemplatesAreTaken(from: NodeState, to: NodeState, day: U32, s: Statement, ar: Arity)
    requires GoodArity(ar) && Healthy(from, ar) && Healthy(to, ar)
    requires Answer(from, day).Some?
    requires forall x | x in Answer(from, day).value :: AcceptableSigned(x, ar) && TemplateStored(to.db, x.statement)
    requires TemplateStored(to.db, s) || TemplateStored(from.db, s)
    ensures TemplateStored(Merge(to.db, Answer(from, day).value).0, s)
  {
    hide View, Valid, KnowsSigners, Answer, TemplateOf, AcceptableSigned, Merge, StatementsGrown, Brings, Entries, Matches;
    var list := Answer(from, day).value;
    if !IsTemplateStatement(s) {
      if TemplateStored(from.db, s) { AnswerBrings(from, day, s, ar); }
      hide TemplateStored, HasTemplate, CacheCovers;
      MergePuts(to.db, list, ar);
      MergedTemplates(to.db, list, s, ar);
    }
  }

  /* ---- the ties an answer makes ---- */

  /** What the answer says about one template row. */
  function AnswerEntry(from: NodeState, e: Entity, day: U32): Entry {
    var o := SignUsing(ReplyOpinion(day), StatementText(About(e)), from.own.key);
    Entry(Key(ContentsOf(About(e)), from.own.key.public), StoredOf(o.data, o.signature))
  }

  /** The answer says something about it. */
  ghost predicate IsAnswered(from: NodeState, k: Key, day: U32) {
    exists e | HoldsTemplate(from.db, e) :: AnswerEntry(from, e, day).key == k
  }

  predicate TiedUnder(v: Register, w: Register, k: Key) {
    k in v && k in w && Tied(v[k], w[k]) && v[k] != w[k]
  }

  /** The sender's stored opinion on one of its template rows, and the one the receiver has
      after the answer: if that is the answer's, then a tie is an opinion stored for the same
      day with serial number 0, and other than the answer. */
  predicate AnswerTies(v: Register, w: Register, x: Entry, day: U32) {
    && x.key in w
    && if Takes(v, x) then w[x.key].date == day && w[x.key].serial == 0 && w[x.key] != x.stored
       else TiedUnder(v, w, x.key)
  }

  /** Which ties there are once an answer is taken: those there were under keys it says nothing
      about, and those it makes or leaves on the sender's template rows. */
  lemma TiesAfterAnswer(from: NodeState, to: NodeState, day: U32, ar: Arity)
    requires GoodArity(ar) && Healthy(from, ar) && Healthy(to, ar) && Coherent(to) && TakesTemplates(to.db, from.db)
    ensures Answer(from, day).Some? && Take(to, Answer(from, day).value).Some?
    ensures TiedApart(View(Take(to, Answer(from, day).value).value.db), View(from.db)) <==>
              || (exists k :: !IsAnswered(from, k, day) && TiedUnder(View(to.db), View(from.db), k))
              || (exists e | HoldsTemplate(from.db, e) :: AnswerTies(View(to.db), View(from.db), AnswerEntry(from, e, day), day))
  {
    hide View, Healthy, Coherent, Sound, Answer, Take, HoldsTemplate, TemplateStored, PutAll, Put, Entries, AnswerEntry, TakesTemplates,
      TiedUnder, Takes, AnswerTies;
    AnswerIsTaken(from, to, day, ar);
    var es := Entries(Answer(from, day).value);
    var v, w, end := View(to.db), View(from.db), View(Take(to, Answer(from, day).value).value.db);
    assert TiedApart(end, w) <==> exists k :: TiedUnder(end, w, k) by { TiedUnderMeans(end, w); }
    forall k | !IsAnswered(from, k, day) ensures TiedUnder(end, w, k) <==> TiedUnder(v, w, k) {
      UnansweredKey(from, v, w, k, day, ar);
    }
    forall e | HoldsTemplate(from.db, e)
      ensures TiedUnder(end, w, AnswerEntry(from, e, day).key) <==> AnswerTies(v, w, AnswerEntry(from, e, day), day)
    {
      AnsweredKey(from, v, w, e, day, ar);
    }
  }

  lemma TiedUnderMeans(v: Register, w: Register)
    ensures TiedApart(v, w) <==> exists k :: TiedUnder(v, w, k)
  {
    if TiedApart(v, w) {
      var k :| k in v && k in w && Tied(v[k], w[k]) && v[k] != w[k];
      assert TiedUnder(v, w, k);
    }
  }

  /** The entries of an answer are one for each template row, under a key of its own. */
  lemma AnswerEntries(from: NodeState, day: U32, ar: Arity)
    requires GoodArity(ar) && Healthy(from, ar)
    ensures Answer(from, day).Some?
    ensures forall x :: x in Entries(Answer(from, day).value) <==> exists e | HoldsTemplate(from.db, e) :: x == AnswerEntry(from, e, day)
    ensures forall e, f | HoldsTemplate(from.db, e) && HoldsTemplate(from.db, f) && AnswerEntry(from, e, day).key == AnswerEntry(from, f, day).key :: e == f
  {
    hide View, Healthy, Answer, HoldsTemplate, ContentsOf, StatementText, SignedTemplate, Entries, EntriesOf, Printable, AnswerEntry;
    AnswerIsAcceptable(from, day, ar);
    var list := Answer(from, day).value;
    forall x | x in Entries(list) ensures exists e | HoldsTemplate(from.db, e) :: x == AnswerEntry(from, e, day) {
      var s := EntryFrom(list, x);
      var e :| HoldsTemplate(from.db, e) && s == SignedTemplate(e, from.own.key, day);
      AnswerEntryIs(from, e, day);
    }
    forall e | HoldsTemplate(from.db, e) ensures AnswerEntry(from, e, day) in Entries(list) && Printable(e) {
      var s := SignedTemplate(e, from.own.key, day);
      SignedTemplateIs(e, from.own.key, day);
      assert s in list && e in s.statement.entities;
      AnswerEntryIs(from, e, day);
      EntryInEntries(list, s, AnswerEntry(from, e, day));
    }
    forall e, f | HoldsTemplate(from.db, e) && HoldsTemplate(from.db, f) && AnswerEntry(from, e, day).key == AnswerEntry(from, f, day).key
      ensures e == f
    {
      AnswerKeyIs(from, e, day);
      AnswerKeyIs(from, f, day);
      SameContents(About(e), f);
    }
  }

  lemma AnswerEntryIs(from: NodeState, e: Entity, day: U32)
    ensures EntriesOf(SignedTemplate(e, from.own.key, day)) == [AnswerEntry(from, e, day)]
  {
    hide ContentsOf, StatementText, SignableText;
    SignedTemplateEntry(e, from.own.key, day);
  }

  lemma AnswerKeyIs(from: NodeState, e: Entity, day: U32)
    ensures AnswerEntry(from, e, day).key.statement == ContentsOf(About(e))
    ensures AnswerEntry(from, e, day).stored.date == day && AnswerEntry(from, e, day).stored.serial == 0
    ensures AnswerEntry(from, e, day).stored.valid == 7 && AnswerEntry(from, e, day).stored.certainty == 3
  {
    hide ContentsOf, StatementText, SignableText;
  }

  lemma UnansweredKey(from: NodeState, v: Register, w: Register, k: Key, day: U32, ar: Arity)
    requires GoodArity(ar) && Healthy(from, ar) && !IsAnswered(from, k, day)
    ensures Answer(from, day).Some?
    ensures TiedUnder(PutAll(v, Entries(Answer(from, day).value)), w, k) <==> TiedUnder(v, w, k)
  {
    hide Healthy, Answer, HoldsTemplate, PutAll, Put, Entries, AnswerEntry, Tied;
    AnswerEntries(from, day, ar);
    var es := Entries(Answer(from, day).value);
    forall x | x in es ensures x.key != k {
      var e :| HoldsTemplate(from.db, e) && x == AnswerEntry(from, e, day);
    }
    PutAllIsKept(v, es, k);
  }

  lemma PutAllIsKept(v: Register, es: seq<Entry>, k: Key)
    requires forall x | x in es :: x.key != k
    ensures (k in PutAll(v, es) <==> k in v) && (k in v ==> PutAll(v, es)[k] == v[k])
  {
    hide PutAll, Put;
    PutAllIsNewest(v, es, k);
    if k in v { PutAllOnce(v, es, Entry(k, v[k])); }
  }

  lemma AnsweredKey(from: NodeState, v: Register, w: Register, e: Entity, day: U32, ar: Arity)
    requires GoodArity(ar) && Healthy(from, ar) && HoldsTemplate(from.db, e)
    ensures Answer(from, day).Some?
    ensures var x := AnswerEntry(from, e, day);
            TiedUnder(PutAll(v, Entries(Answer(from, day).value)), w, x.key) <==> AnswerTies(v, w, x, day)
  {
    hide Healthy, Answer, HoldsTemplate, PutAll, Entries, AnswerEntry;
    AnswerEntries(from, day, ar);
    var es := Entries(Answer(from, day).value);
    var x := AnswerEntry(from, e, day);
    forall y | y in es && y.key == x.key ensures y == x {
      var f :| HoldsTemplate(from.db, f) && y == AnswerEntry(from, f, day);
    }
    PutAllOnce(v, es, x);
    AnswerKeyIs(from, e, day);
  }

  /* ---- the connection of any two nodes ---- */

  /** What a store has a template for, and what template rows it has, after one answer or both:
      what either store had, and no more. */
  ghost predicate Gathers(after: Db, a: Db, b: Db) {
    && (forall s | TemplateStored(a, s) || TemplateStored(b, s) :: TemplateStored(after, s))
    && (forall e | HoldsTemplate(after, e) :: HoldsTemplate(a, e) || HoldsTemplate(b, e))
  }

  /** No opinions but on what one of the stores had opinions on, or on their template rows. */
  ghost predicate GathersViews(after: Db, a: Db, b: Db) {
    forall k | k in View(after) ::
      k in View(a) || k in View(b) || exists e | HoldsTemplate(a, e) || HoldsTemplate(b, e) :: Printable(e) && k.statement == ContentsOf(About(e))
  }

  /** The first half of a connection, seen by the store that takes the answer. */
  lemma TakenGathers(from: NodeState, to: NodeState, day: U32, ar: Arity)
    requires GoodArity(ar) && Healthy(from, ar) && Healthy(to, ar) && Coherent(to) && TakesTemplates(to.db, from.db)
    ensures Answer(from, day).Some? && Take(to, Answer(from, day).value).Some?
    ensures var to' := Take(to, Answer(from, day).value).value;
            && Healthy(to', ar) && Sound(to', ar) && to'.own == to.own
            && View(to'.db) == PutAll(View(to.db), Entries(Answer(from, day).value))
            && Gathers(to'.db, to.db, from.db) && GathersViews(to'.db, to.db, from.db)
  {
    hide View, Healthy, Coherent, Sound, Answer, Take, HoldsTemplate, TemplateStored, PutAll, Entries, ContentsOf, Printable,
      TakesTemplates;
    AnswerIsTaken(from, to, day, ar);
    var list := Answer(from, day).value;
    var to' := Take(to, list).value;
    forall k | k in View(to'.db)
      ensures k in View(to.db) || exists e | HoldsTemplate(to.db, e) || HoldsTemplate(from.db, e) :: Printable(e) && k.statement == ContentsOf(About(e))
    {
      PutAllIsNewest(View(to.db), Entries(list), k);
      if k !in View(to.db) {
        var x := Entry(k, View(to'.db)[k]);
        assert x in Entries(list);
        var e := AnswerIsOnTemplates(from, day, x, ar);
        assert HoldsTemplate(from.db, e);
      }
    }
  }

  /** A store that gathers what two others had takes the template rows of both, and has a
      template for whatever either of them has an opinion on. */
  lemma GatheredIsUnderstood(after: Db, a: Db, b: Db, other: Db)
    requires Gathers(after, a, b) && TakeTemplates(a, b) && UnderstandsItself(a) && UnderstandsItself(b)
    requires GathersViews(other, a, b)
    ensures Understands(after, View(other).Keys)
  {
    hide View, HoldsTemplate, TemplateStored, ContentsOf, Printable, TakesTemplates;
    forall k, s: Statement | k in View(other).Keys && s.entities != [] && AllPrintable(s.entities) && ContentsOf(s) == k.statement
      ensures TemplateStored(after, s)
    {
      if k in View(a) {
        assert TemplateStored(a, s);
      } else if k in View(b) {
        assert TemplateStored(b, s);
      } else {
        var e :| (HoldsTemplate(a, e) || HoldsTemplate(b, e)) && Printable(e) && k.statement == ContentsOf(About(e));
        SameContents(s, e);
        TakenByBoth(a, b, e);
      }
    }
  }

  lemma TakenByBoth(a: Db, b: Db, e: Entity)
    requires TakeTemplates(a, b) && (HoldsTemplate(a, e) || HoldsTemplate(b, e))
    ensures TemplateStored(a, About(e)) && TemplateStored(b, About(e))
  {
    hide HoldsTemplate, TemplateStored;
  }

  lemma GatheredTakes(after: Db, a: Db, b: Db, other: Db)
    requires Gathers(after, a, b) && TakeTemplates(a, b)
    requires forall e | HoldsTemplate(other, e) :: HoldsTemplate(a, e) || HoldsTemplate(b, e)
    ensures TakesTemplates(after, other)
  {
    hide HoldsTemplate, TemplateStored;
    forall e | HoldsTemplate(other, e) ensures TemplateStored(after, About(e)) {
      TakenByBoth(a, b, e);
    }
  }

  /** Gathering from a store that has gathered is gathering. */
  lemma GathersAgain(last: Db, b: Db, after: Db, a: Db)
    requires Gathers(last, b, after) && Gathers(after, a, b)
    ensures Gathers(last, a, b)
  {
    hide HoldsTemplate, TemplateStored;
  }

  lemma GathersViewsAgain(last: Db, b: Db, after: Db, a: Db)
    requires GathersViews(last, b, after) && GathersViews(after, a, b) && Gathers(after, a, b)
    ensures GathersViews(last, a, b)
  {
    hide View, HoldsTemplate, TemplateStored, ContentsOf, Printable;
    forall k | k in View(last)
      ensures k in View(a) || k in View(b) || exists e | HoldsTemplate(a, e) || HoldsTemplate(b, e) :: Printable(e) && k.statement == ContentsOf(About(e))
    {
      if k !in View(b) && k !in View(after) {
        var e :| (HoldsTemplate(b, e) || HoldsTemplate(after, e)) && Printable(e) && k.statement == ContentsOf(About(e));
        assert HoldsTemplate(a, e) || HoldsTemplate(b, e);
      }
    }
  }

  lemma GathersOtherWay(after: Db, a: Db, b: Db)
    requires Gathers(after, a, b) && GathersViews(after, a, b)
    ensures Gathers(after, b, a) && GathersViews(after, b, a)
  {
    hide View, HoldsTemplate, TemplateStored, ContentsOf, Printable;
  }

  /** A connection of any two healthy nodes succeeds, crossed or not and on whatever days they
      answer, if each takes the template rows of both. */
  lemma ConnectionGathers(a: NodeState, b: NodeState, dayA: U32, dayB: U32, crossed: bool, ar: Arity)
    requires GoodArity(ar) && Healthy(a, ar) && Healthy(b, ar) && Coherent(a) && Coherent(b) && TakeTemplates(a.db, b.db)
    ensures Connect(a, b, dayA, dayB, crossed).Some?
    ensures var (a', b') := Connect(a, b, dayA, dayB, crossed).value;
            && Healthy(a', ar) && Sound(a', ar) && a'.own == a.own && Healthy(b', ar) && Sound(b', ar) && b'.own == b.own
            && Gathers(a'.db, a.db, b.db) && GathersViews(a'.db, a.db, b.db)
            && Gathers(b'.db, a.db, b.db) && GathersViews(b'.db, a.db, b.db)
  {
    hide View, Healthy, Coherent, Sound, Answer, Take, PutAll, Entries, TakesTemplates, Gathers, GathersViews;
    TakenGathers(b, a, dayB, ar);
    var a' := Take(a, Answer(b, dayB).value).value;
    var from := if crossed then a else a';
    if !crossed {
      GatheredRows(a'.db, a.db, b.db);
      OwnIsTaken(b.db, a.db, a'.db);
    }
    TakenGathers(from, b, dayA, ar);
    var b' := Take(b, Answer(from, dayA).value).value;
    if crossed {
      GathersOtherWay(b'.db, b.db, a.db);
    } else {
      GathersAgain(b'.db, b.db, a'.db, a.db);
      GathersViewsAgain(b'.db, b.db, a'.db, a.db);
    }
  }

  lemma GatheredRows(after: Db, a: Db, b: Db)
    requires Gathers(after, a, b)
    ensures forall e | HoldsTemplate(after, e) :: HoldsTemplate(a, e) || HoldsTemplate(b, e)
  {
    hide HoldsTemplate, TemplateStored;
  }

  lemma OwnIsTaken(b: Db, a: Db, after: Db)
    requires TakeTemplates(a, b) && forall e | HoldsTemplate(after, e) :: HoldsTemplate(a, e) || HoldsTemplate(b, e)
    ensures TakesTemplates(b, after)
  {
    hide HoldsTemplate, TemplateStored;
    forall e | HoldsTemplate(after, e) ensures TemplateStored(b, About(e)) { TakenByBoth(a, b, e); }
  }

  /** What the template request is for. If each of two healthy nodes has a stored template for
      its own statements, then after the connection each has one for those of the other, and
      they can come to agree if and only if they are not tied apart then. */
  lemma ConnectionMakesCompatible(
      a: NodeState, b: NodeState, dayA: U32, dayB: U32, crossed: bool, all: iset<Entry>, ar: Arity)
    requires GoodArity(ar) && Healthy(a, ar) && Healthy(b, ar) && Coherent(a) && Coherent(b) && TakeTemplates(a.db, b.db)
    requires UnderstandsItself(a.db) && UnderstandsItself(b.db)
    ensures Connect(a, b, dayA, dayB, crossed).Some?
    ensures var (a', b') := Connect(a, b, dayA, dayB, crossed).value;
            && Healthy(a', ar) && Sound(a', ar) && Healthy(b', ar) && Sound(b', ar)
            && TakeTemplates(a'.db, b'.db) && UnderstandsItself(a'.db) && UnderstandsItself(b'.db)
            && (UniquelySigned(all) && Within(View(a'.db), all) && Within(View(b'.db), all) ==>
                  && Compatible(a'.db, b'.db, all, ar)
                  && ((exists rounds :: AgreeAfter(a', b', rounds)) <==> !TiedApart(View(a'.db), View(b'.db))))
  {
    hide View, Valid, KnowsSigners, Healthy, Coherent, Connect, Understands, Within, UniquelySigned, TiedApart, AgreeAfter, SessionEnd,
      Unsettled, Gathers, GathersViews, TakesTemplates;
    ConnectionGathers(a, b, dayA, dayB, crossed, ar);
    var (a', b') := Connect(a, b, dayA, dayB, crossed).value;
    GatheredRows(a'.db, a.db, b.db);
    GatheredRows(b'.db, a.db, b.db);
    GatheredTakes(a'.db, a.db, b.db, a'.db);
    GatheredTakes(a'.db, a.db, b.db, b'.db);
    GatheredTakes(b'.db, a.db, b.db, a'.db);
    GatheredTakes(b'.db, a.db, b.db, b'.db);
    GatheredIsUnderstood(a'.db, a.db, b.db, a'.db);
    GatheredIsUnderstood(a'.db, a.db, b.db, b'.db);
    GatheredIsUnderstood(b'.db, a.db, b.db, a'.db);
    GatheredIsUnderstood(b'.db, a.db, b.db, b'.db);
    BothUnderstood(a'.db, View(a'.db).Keys, View(b'.db).Keys);
    BothUnderstood(b'.db, View(a'.db).Keys, View(b'.db).Keys);
    if UniquelySigned(all) && Within(View(a'.db), all) && Within(View(b'.db), all) {
      NodesAgreeWithoutTies(a', b', all, ar);
    }
  }

  lemma BothUnderstood(db: Db, ks: set<Key>, ls: set<Key>)
    requires Understands(db, ks) && Understands(db, ls)
    ensures Understands(db, ks + ls)
  {
    hide TemplateStored, ContentsOf, Printable;
  }
}
