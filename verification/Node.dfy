/** A node: its store and the summaries it has cached. Every handler is one atomic step. */
module Node {
  import opened Entities
  import opened Options
  import opened RoundTrip
  import opened Opinions
  import opened Tables
  import opened Store
  import opened StoreInvariants
  import opened Registers
  import opened Views
  import opened Merging
  import opened Refusals
  import opened Listing
  import opened Summaries
  import opened SummaryMeaning
  import opened Protocol
  import opened Startup
  import opened TemplateReplies
  import opened StorageClass

  datatype NodeState = NodeState(db: Db, ownInfos: map<nat, SyncInfos>, own: OwnKey)

  datatype Event =
    | Connected
    | TemplateRequest(today: U32)
    | Announce(date: nat)
    | Broadcast(signed: SignedStatement)
    | Announcement(infos: SyncInfos)
    | Request(name: string, on: nat)
    | Response(list: seq<SignedStatement>)
    | NoResponse

  /** What a step sends: summaries, requests for templates or for names of a date, or a reply. */
  datatype Output =
    | Nothing
    | TemplatesRequested
    | Infos(infos: SyncInfos)
    | Requests(names: set<string>, date: nat)
    | Reply(list: seq<SignedStatement>)

  /** The cached summary of a date, computed and cached if it is not there. */
  function OwnInfos(n: NodeState, date: nat): (NodeState, SyncInfos) {
    if date in n.ownInfos then (n, n.ownInfos[date])
    else
      var infos := GetSyncInfos(n.db, date);
      (n.(ownInfos := n.ownInfos[date := infos]), infos)
  }

  /** One step; `None` is a panic. A refused broadcast flushes nothing, everything that was
      written is followed by a flush. */
  function Step(n: NodeState, e: Event): Option<(NodeState, Output)> {
    match e
    case Connected => Some((n, TemplatesRequested))
    case TemplateRequest(today) =>
      (match AllTemplates(n.db.statements)
       case Some(es) => Some((n, Reply(TemplateReply(es, n.own.key, today))))
       case None => None)
    case Announce(date) =>
      var (n', infos) := OwnInfos(n, date);
      Some((n', Infos(infos)))
    case Broadcast(signed) =>
      (match PersistSigned(n.db, signed)
       case (db, Done(_)) => Some((n.(db := db, ownInfos := map[]), Nothing))
       case (db, NoTemplate) => Some((n.(db := db), Nothing))
       case (_, Panicked) => None)
    case Announcement(infos) =>
      var (n', own) := OwnInfos(n, infos.date);
      Some((n', Requests(Requested(own, infos), infos.date)))
    case Request(name, date) =>
      (match ListNamed(n.db, name, date)
       case Some(list) => Some((n, Reply(list)))
       case None => None)
    case Response(list) =>
      (match Merge(n.db, list)
       case (db, Done(_)) => Some((n.(db := db, ownInfos := map[]), Nothing))
       case _ => None)
    case NoResponse => Some((n, Nothing))
  }

  /** The states a run reaches, up to a panic. */
  function Run(n: NodeState, events: seq<Event>): Option<NodeState>
    decreases |events|
  {
    if events == [] then Some(n)
    else
      match Step(n, events[0])
      case None => None
      case Some((n', _)) => Run(n', events[1..])
  }

  /** Every cached summary is what the tables would give now. */
  ghost predicate Coherent(n: NodeState) {
    forall date | date in n.ownInfos :: n.ownInfos[date] == GetSyncInfos(n.db, date)
  }

  /** What peers may send: acceptable statements, with a known template or without. */
  ghost predicate AcceptableEvent(e: Event, ar: Arity) {
    match e
    case Broadcast(signed) => AcceptableSigned(signed, ar)
    case Response(list) => forall s | s in list :: AcceptableSigned(s, ar)
    case _ => true
  }

  ghost predicate Sound(n: NodeState, ar: Arity) {
    Valid(n.db, ar) && KnowsSigners(n.db) && Coherent(n)
  }

  /** Every step keeps the store valid and its caches covering. It fails if and only if it is
      a response in which some statement finds no template in its turn. */
  lemma StepKeepsStore(n: NodeState, e: Event, ar: Arity)
    requires GoodArity(ar) && Valid(n.db, ar) && KnowsSigners(n.db) && AcceptableEvent(e, ar)
    ensures Step(n, e).Some? ==>
              var n' := Step(n, e).value.0;
              && Valid(n'.db, ar) && KnowsSigners(n'.db) && StatementsGrown(n.db, n'.db)
              && (n'.db == n.db || n'.ownInfos == map[]) && n'.own == n.own
    ensures Step(n, e).None? <==> e.Response? && !Accepted(n.db, e.list)
    ensures (e.Response? ==> forall s | s in e.list :: TemplateStored(n.db, s.statement)) ==> Step(n, e).Some?
  {
    hide Accepted, Valid, KnowsSigners, PersistSigned, Merge, GetSyncInfos, ListNamed, AcceptableSigned, TemplateStored,
      View, Requested, HasTemplate, StatementsGrown, AllTemplates, TemplateReply;
    NothingGrown(n.db);
    match e
    case Connected =>
    case TemplateRequest(_) =>
      TemplatesAreListed(n.db.statements, ar) by { ValidHasTables(n.db, ar); }
    case Announce(_) =>
    case Broadcast(signed) =>
      SignedPuts(n.db, signed, ar);
      KnowledgeStays(n.db, PersistSigned(n.db, signed).0);
    case Announcement(_) =>
    case Request(name, date) =>
      ReplyCarries(n.db, name, date, ar) by { ValidHasTables(n.db, ar); }
    case Response(list) =>
      MergePuts(n.db, list, ar);
      DoneIsAccepted(n.db, list, ar);
      KnowledgeStays(n.db, Merge(n.db, list).0);
    case NoResponse =>
  }

  /** The failing responses, in terms of the state before: one that brings no template fails
      if and only if some statement in it has no known template. */
  lemma PlainResponseFails(n: NodeState, list: seq<SignedStatement>, ar: Arity)
    requires GoodArity(ar) && Valid(n.db, ar) && KnowsSigners(n.db)
    requires AcceptableEvent(Response(list), ar) && NoTemplates(list)
    ensures Step(n, Response(list)).None? <==> exists s | s in list :: !HasTemplate(n.db.templates, s.statement)
  {
    hide Valid, KnowsSigners, Merge, AcceptableSigned, HasTemplate;
    PlainDelivery(n.db, list, ar);
  }

  /** While the template cache says what the table says, any response fails if and only if
      some statement in it has neither a known template nor one brought earlier in it. */
  lemma ExactResponseFails(n: NodeState, list: seq<SignedStatement>, ar: Arity)
    requires GoodArity(ar) && Valid(n.db, ar) && KnowsSigners(n.db) && CacheIsExact(n.db)
    requires AcceptableEvent(Response(list), ar)
    ensures Step(n, Response(list)).None? <==> exists k | 0 <= k < |list| :: !Foreseen(n.db, list, k)
  {
    hide Valid, CacheIsExact, KnowsSigners, Merge, AcceptableSigned, Foreseen;
    ExactDelivery(n.db, list, ar);
  }

  /** No step makes the template cache inexact. */
  lemma StepKeepsExact(n: NodeState, e: Event, ar: Arity)
    requires GoodArity(ar) && Valid(n.db, ar) && KnowsSigners(n.db) && AcceptableEvent(e, ar) && CacheIsExact(n.db)
    ensures Step(n, e).Some? ==> CacheIsExact(Step(n, e).value.0.db)
  {
    hide Valid, KnowsSigners, PersistSigned, Merge, GetSyncInfos, ListNamed, AcceptableSigned, CacheIsExact, Requested,
      AllTemplates, TemplateReply;
    match e
    case Broadcast(signed) => SignedKeepsExact(n.db, signed, ar);
    case Response(list) => MergeKeepsExact(n.db, list, ar);
    case _ =>
  }

  /** Every step keeps the summaries coherent, too: whatever changed the tables flushed them. */
  lemma StepIsSound(n: NodeState, e: Event, ar: Arity)
    requires GoodArity(ar) && Sound(n, ar) && AcceptableEvent(e, ar)
    ensures Step(n, e).Some? ==> Sound(Step(n, e).value.0, ar)
  {
    hide Valid, KnowsSigners, PersistSigned, Merge, GetSyncInfos, ListNamed, TemplateStored, Requested, StatementsGrown;
    StepKeepsStore(n, e, ar);
  }

  lemma ValidHasTables(db: Db, ar: Arity)
    requires Valid(db, ar)
    ensures ValidTables(db, ar)
  {
  }

  /** Over whole runs the cached summaries never go stale, and what a node announces or
      compares with is what its tables say. */
  lemma {:induction false} RunsAreSound(n: NodeState, events: seq<Event>, ar: Arity)
    requires GoodArity(ar) && Sound(n, ar) && forall e | e in events :: AcceptableEvent(e, ar)
    ensures Run(n, events).Some? ==>
              Sound(Run(n, events).value, ar)
              && forall date: nat :: OwnInfos(Run(n, events).value, date).1 == GetSyncInfos(Run(n, events).value.db, date)
    decreases |events|
  {
    hide Valid, KnowsSigners, Step, GetSyncInfos, AcceptableEvent;
    if events != [] {
      StepIsSound(n, events[0], ar);
      if Step(n, events[0]).Some? {
        RunsAreSound(Step(n, events[0]).value.0, events[1..], ar);
      }
    }
  }

  /* ---- local input ---- */

  /** Summaries of two stores agree on a date exactly when their views hold the same
      signatures of it, name by name: ids and insertion order play no part. */
  lemma SummaryIsSignatures(a: Db, b: Db, date: nat, ar: Arity)
    requires GoodArity(ar) && ValidTables(a, ar) && ValidTables(b, ar)
    requires DistinctIn(View(a)) && DistinctIn(View(b))
    ensures GetSyncInfos(a, date) == GetSyncInfos(b, date)
            <==> forall n: string :: SignaturesOn(View(a), n, date) == SignaturesOn(View(b), n, date)
  {
    hide View, ValidTables, SignaturesOn, DistinctIn, InfosOf;
    var x, y := GetSyncInfos(a, date), GetSyncInfos(b, date);
    forall n: string
      ensures (n in x.infos <==> n in y.infos) && (n in x.infos ==> x.infos[n] == y.infos[n])
              <==> SignaturesOn(View(a), n, date) == SignaturesOn(View(b), n, date)
    {
      var s := InfoMeans(a, n, date, ar);
      var t := InfoMeans(b, n, date, ar);
      if Elements(s) == Elements(t) { SortedListIsUnique(s, t); }
    }
    if forall n: string :: SignaturesOn(View(a), n, date) == SignaturesOn(View(b), n, date) {
      assert x.infos == y.infos;
    }
  }

  /** Signing a stored statement locally writes an opinion of today and flushes nothing. */
  function SignLocally(n: NodeState, s: Statement, id: nat, today: U32): (NodeState, Outcome<Persisted<Opinion>>) {
    var (db, r) := PersistOpinion(n.db, SignUsing(DefaultOpinion(today), StatementText(s), n.own.key), id);
    (n.(db := db), r)
  }

  /** A statement typed in: store it, with e-mail addresses hashed if need be, and sign it.
      Without a template nothing happens; `None` is a panic. */
  function Typed(n: NodeState, s: Statement, today: U32): Option<NodeState> {
    match PersistHashing(n.db, s)
    case (db, Done(p)) =>
      var (n', r) := SignLocally(n.(db := db), p.data, p.id, today);
      if r.Done? then Some(n') else None
    case (db, NoTemplate) => Some(n.(db := db))
    case (_, Panicked) => None
  }

  /** Without and with one key, the signatures are those of the other keys and its own. */
  lemma SignaturesBesides(v: Register, name: string, date: nat, k: Key, rest: set<Key>) returns (others: set<string>)
    requires DistinctIn(v) && k !in rest && rest <= v.Keys
    requires KeysOn(v, name, date) == rest + if Holds(v, name, date, k) then {k} else {}
    ensures others == set l | l in rest :: v[l].signature
    ensures SignaturesOn(v, name, date) == others + if Holds(v, name, date, k) then {v[k].signature} else {}
    ensures Holds(v, name, date, k) ==> v[k].signature !in others
  {
    others := set l | l in rest :: v[l].signature;
  }

  /** A view holds an opinion of this name and date under the key. */
  predicate Holds(v: Register, name: string, date: nat, k: Key) {
    k in v && k.statement.name == name && v[k].date == date
  }

  lemma OtherKeys(v: Register, w: Register, name: string, date: nat, k: Key) returns (rest: set<Key>)
    requires v - {k} == w - {k}
    ensures k !in rest && rest <= v.Keys && rest <= w.Keys
    ensures forall l | l in rest :: v[l] == w[l]
    ensures KeysOn(v, name, date) == rest + if Holds(v, name, date, k) then {k} else {}
    ensures KeysOn(w, name, date) == rest + if Holds(w, name, date, k) then {k} else {}
  {
    rest := KeysOn(v - {k}, name, date);
  }

  /** Two views that differ in one key at most have the same signatures of a name and date
      exactly when both hold it there with one signature, or neither holds it there. */
  lemma OneKeyApart(v: Register, w: Register, name: string, date: nat, k: Key)
    requires DistinctIn(v) && DistinctIn(w)
    requires v - {k} == w - {k}
    ensures SignaturesOn(v, name, date) == SignaturesOn(w, name, date) <==>
              ((Holds(v, name, date, k) <==> Holds(w, name, date, k))
               && (Holds(v, name, date, k) ==> v[k].signature == w[k].signature))
  {
    hide DistinctIn, SignaturesOn, KeysOn, Holds;
    var rest := OtherKeys(v, w, name, date, k);
    var x := SignaturesBesides(v, name, date, k, rest);
    var y := SignaturesBesides(w, name, date, k, rest);
    assert x == y;
    hide *;
    TwoSets(x, Holds(v, name, date, k), if k in v then v[k].signature else [],
      Holds(w, name, date, k), if k in w then w[k].signature else []);
  }

  lemma TwoSets(x: set<string>, p: bool, a: string, q: bool, b: string)
    requires (p ==> a !in x) && (q ==> b !in x)
    ensures (x + if p then {a} else {}) == (x + if q then {b} else {}) <==> ((p <==> q) && (p ==> a == b))
  {
    var s, t := x + if p then {a} else {}, x + if q then {b} else {};
    assert p ==> a in s;
    assert q ==> b in t;
  }

  /** Taking an entry of a later date changes the signatures of that date and of the date of
      the opinion it replaces, and of no other. */
  lemma TakenChanges(v: Register, e: Entry, date: nat)
    requires DistinctIn(v) && DistinctIn(Put(v, e)) && Takes(v, e)
    requires e.key in v ==> v[e.key].signature != e.stored.signature
    ensures (forall n: string :: SignaturesOn(Put(v, e), n, date) == SignaturesOn(v, n, date)) <==>
              (date != e.stored.date && (e.key in v ==> date != v[e.key].date))
  {
    hide DistinctIn, SignaturesOn;
    var w, k := Put(v, e), e.key;
    assert v - {k} == w - {k};
    forall n: string
      ensures SignaturesOn(w, n, date) == SignaturesOn(v, n, date) <==>
                (n != k.statement.name || (date != e.stored.date && (k in v ==> date != v[k].date)))
    {
      OneKeyApart(v, w, n, date, k);
    }
    assert SignaturesOn(w, k.statement.name, date) == SignaturesOn(v, k.statement.name, date) <==>
             (date != e.stored.date && (k in v ==> date != v[k].date));
  }

  /** Local input is outside the coherence the other steps keep. After signing, the cached
      summaries are right exactly when the opinion is not taken, or neither today's summary
      nor that of the date of the opinion it replaces is cached. */
  lemma SigningCoherence(n: NodeState, s: Statement, id: nat, today: U32, all: iset<Entry>, ar: Arity)
    requires GoodArity(ar) && Sound(n, ar) && UniquelySigned(all) && Within(View(n.db), all)
    requires ById(n.db.statements, id).Some? && Printable(Signer(n.own.key.public))
    requires EntryOf(n.db.statements, SignUsing(DefaultOpinion(today), StatementText(s), n.own.key), id) in all
    ensures var (n', r) := SignLocally(n, s, id, today);
            var e := EntryOf(n.db.statements, SignUsing(DefaultOpinion(today), StatementText(s), n.own.key), id);
            var v := View(n.db);
            && r.Done? && Valid(n'.db, ar) && n'.ownInfos == n.ownInfos && View(n'.db) == Put(v, e)
            && (Coherent(n') <==>
                 !Takes(v, e) || (today !in n.ownInfos && (e.key in v ==> v[e.key].date !in n.ownInfos)))
  {
    hide View, ValidTables, CacheCovers, GetSyncInfos, PersistOpinion, StatementText, SignaturesOn, DistinctIn,
      UniquelySigned, ById, Printable, KnowsSigners, HasTemplate, Within;
    var o := SignUsing(DefaultOpinion(today), StatementText(s), n.own.key);
    var e := EntryOf(n.db.statements, o, id);
    var v := View(n.db);
    SignersHaveTemplate(n.db, n.own.key.public);
    PersistOpinionPuts(n.db, o, id, ar);
    var (n', r) := SignLocally(n, s, id, today);
    PutWithin(v, e, all);
    SignedIsDistinct(v, all);
    SignedIsDistinct(Put(v, e), all);
    forall date: nat
      ensures GetSyncInfos(n.db, date) == GetSyncInfos(n'.db, date)
              <==> !Takes(v, e) || (date != today && (e.key in v ==> date != v[e.key].date))
    {
      SummaryIsSignatures(n.db, n'.db, date, ar);
      if Takes(v, e) {
        TakenIsSignedAnew(v, e, all);
        TakenChanges(v, e, date);
      }
    }
  }

  /** The statement that typing `s` stores. */
  function StoredForm(n: NodeState, s: Statement): Statement {
    if HasTemplate(n.db.templates, s) then s else HashStatementEmails(s)
  }

  /** The entry of the opinion that typing `s` signs. */
  function TypedEntry(n: NodeState, s: Statement, today: U32): Entry
    requires s.entities != []
  {
    var t := StoredForm(n, s);
    var o := SignUsing(DefaultOpinion(today), StatementText(t), n.own.key);
    Entry(Key(ContentsOf(t), o.signer), StoredOf(o.data, o.signature))
  }

  /** Typing a statement whose own or hashed form has a template signs that form. The cached
      summaries are right afterwards if and only if the opinion is not taken, or neither
      today's summary nor that of the date of the opinion it replaces is cached. */
  lemma LocalInputCoherence(n: NodeState, s: Statement, today: U32, all: iset<Entry>, ar: Arity)
    requires GoodArity(ar) && Sound(n, ar) && UniquelySigned(all) && Within(View(n.db), all)
    requires s.entities != [] && Acceptable(StoredForm(n, s), ar) && Printable(Signer(n.own.key.public))
    requires TypedEntry(n, s, today) in all
    ensures var r := Typed(n, s, today);
            var e := TypedEntry(n, s, today);
            var v := View(n.db);
            && r.Some? && Valid(r.value.db, ar)
            && (if !HasTemplate(n.db.templates, StoredForm(n, s)) then r.value == n
                else
                  && View(r.value.db) == Put(v, e)
                  && (Coherent(r.value) <==>
                       !Takes(v, e) || (today !in n.ownInfos && (e.key in v ==> v[e.key].date !in n.ownInfos))))
  {
    hide View, ValidTables, CacheCovers, GetSyncInfos, PersistStatement, SignLocally, StatementText, SignUsing,
      UniquelySigned, Acceptable, Printable, KnowsSigners, HasTemplate, Within, ContentsOf, HashStatementEmails,
      Takes, Put;
    FormHasEntities(n, s);
    var t := StoredForm(n, s);
    var (db1, p) := PersistStatement(n.db, t);
    StoringCoherence(n, t, all, ar);
    if HasTemplate(n.db.templates, t) {
      SigningCoherence(n.(db := db1), t, p.value.id, today, all, ar);
    }
  }

  lemma FormHasEntities(n: NodeState, s: Statement)
    ensures |StoredForm(n, s).entities| == |s.entities|
  {
  }

  /** Storing a statement, before it is signed, changes no summary. */
  lemma StoringCoherence(n: NodeState, t: Statement, all: iset<Entry>, ar: Arity)
    requires GoodArity(ar) && Sound(n, ar) && UniquelySigned(all) && Within(View(n.db), all)
    requires t.entities != [] && Acceptable(t, ar)
    ensures var (db1, p) := PersistStatement(n.db, t);
            if !HasTemplate(n.db.templates, t) then p == NoTemplate && db1 == n.db
            else
              && p.Done? && p.value.data == t
              && ById(db1.statements, p.value.id).Some?
              && ById(db1.statements, p.value.id).value.contents == ContentsOf(t)
              && View(db1) == View(n.db) && Sound(n.(db := db1), ar)
              && (forall date: nat :: GetSyncInfos(db1, date) == GetSyncInfos(n.db, date))
  {
    hide View, ValidTables, CacheCovers, GetSyncInfos, PersistStatement, UniquelySigned, Acceptable, KnowsSigners,
      HasTemplate, Within, ContentsOf, DataOf, Cached;
    PersistFindsOrInserts(n.db, t, ar);
    var (db1, p) := PersistStatement(n.db, t);
    if HasTemplate(n.db.templates, t) {
      GrownView(n.db, db1, ar);
      GrownIsGrown(n.db, db1);
      KnowledgeStays(n.db, db1);
      SameSummaries(n.db, db1, all, ar);
      ContentsOfData(t);
    }
  }

  /** Tables with one view give the same summaries. */
  lemma SameSummaries(db: Db, db': Db, all: iset<Entry>, ar: Arity)
    requires GoodArity(ar) && ValidTables(db, ar) && ValidTables(db', ar)
    requires UniquelySigned(all) && Within(View(db), all) && View(db') == View(db)
    ensures forall date: nat :: GetSyncInfos(db', date) == GetSyncInfos(db, date)
  {
    hide View, ValidTables, UniquelySigned, Within, GetSyncInfos, SignaturesOn;
    SignedIsDistinct(View(db), all);
    forall date: nat ensures GetSyncInfos(db', date) == GetSyncInfos(db, date) {
      SummaryIsSignatures(db', db, date, ar);
    }
  }

  /** An opinion that replaces another carries another signature. */
  lemma TakenIsSignedAnew(v: Register, e: Entry, all: iset<Entry>)
    requires UniquelySigned(all) && Within(v, all) && e in all && Takes(v, e)
    ensures e.key in v ==> v[e.key].signature != e.stored.signature
  {
    assert e.key in v ==> Entry(e.key, v[e.key]) in all;
  }

  lemma PutWithin(v: Register, e: Entry, all: iset<Entry>)
    requires Within(v, all) && e in all
    ensures Within(Put(v, e), all)
  {
  }
}
