/** The storage of a node: tables, caches and own key, changed in place. Every method is
    proved against the functions on store values. */
module StorageClass {
  import opened Entities
  import opened Options
  import opened CidrIndex
  import opened LookupKeys
  import opened Opinions
  import opened Tables
  import opened Store
  import opened StoreInvariants
  import opened Registers
  import opened Views
  import opened Merging
  import opened Listing
  import opened Summaries
  import opened Startup
  import opened TemplateReplies
  import opened Lookup

  /** The opinions on a statement with their signers taken from the cache; `None` where a
      signer is not in it. */
  function OpinionsFromCache(signers: map<nat, PublicKey>, os: Table<OpinionData>): Option<seq<Row<Opinion>>> {
    if os == [] then Some([])
    else if os[0].data.signerId !in signers then None
    else
      match OpinionsFromCache(signers, os[1..])
      case None => None
      case Some(rest) => Some([Row(os[0].id, OpinionWith(signers[os[0].data.signerId], os[0].data.stored))] + rest)
  }

  lemma {:induction false} FromCacheShape(signers: map<nat, PublicKey>, os: Table<OpinionData>)
    ensures var l := OpinionsFromCache(signers, os);
            && (l.Some? <==> forall j | 0 <= j < |os| :: os[j].data.signerId in signers)
            && (l.Some? ==> |l.value| == |os| && forall j | 0 <= j < |os| ::
                  l.value[j] == Row(os[j].id, OpinionWith(signers[os[j].data.signerId], os[j].data.stored)))
  {
    if os != [] {
      FromCacheShape(signers, os[1..]);
      assert os == [os[0]] + os[1..];
    }
  }

  function OpinionRowsOn(os: Table<OpinionData>, id: nat): Table<OpinionData> {
    Keep(os, (o: Row<OpinionData>) => o.data.statementId == id)
  }

  /** In a valid store the cache never lacks a signer, and it gives the same signer as the
      row in the statement table does. */
  lemma {:induction false} CacheAgrees(db: Db, os: Table<OpinionData>, ar: Arity)
    requires GoodArity(ar) && Valid(db, ar) && forall o | o in os :: o in db.opinions
    ensures var l := OpinionsFromCache(db.signers, os);
            && l.Some? && |l.value| == |os|
            && forall k | 0 <= k < |os| ::
                 l.value[k].id == os[k].id && Some(l.value[k].data) == OpinionOf(db.statements, os[k].data)
  {
    hide Valid, OpinionOf;
    if os != [] {
      SignerIsCached(db, os[0], ar);
      CacheAgrees(db, os[1..], ar);
    }
  }

  lemma SignerIsCached(db: Db, o: Row<OpinionData>, ar: Arity)
    requires GoodArity(ar) && Valid(db, ar) && o in db.opinions
    ensures o.data.signerId in db.signers
    ensures OpinionOf(db.statements, o.data) == Some(OpinionWith(db.signers[o.data.signerId], o.data.stored))
  {
    hide ReadContents, SignerOf, TemplateOf, OpinionOf, Increasing, Faithful, Acceptable, AcceptableOpinion;
    OpinionReads(db, o, ar);
    KeyOfPair(db, o.data);
    var r := Row(o.data.signerId, ById(db.statements, o.data.signerId).value);
    assert r in db.statements && Cached(db, r);
  }

  /** What the view holds on a statement: one opinion of each signer who has one there, with the
      values held, and nothing else. Comments are not stored. */
  ghost predicate ListsHeld(db: Db, c: Contents, list: seq<Row<Opinion>>) {
    && (forall j, k | 0 <= j < k < |list| :: list[j].data.signer != list[k].data.signer)
    && (forall x | x in list ::
          var k := Key(c, x.data.signer);
          && k in View(db)
          && var s := View(db)[k];
             x.data == Opinion(UnsignedOpinion(s.date, s.valid, s.serial, s.certainty, ""), k.signer, s.signature))
    && (forall k | k in View(db) && k.statement == c :: exists x | x in list :: x.data.signer == k.signer)
  }

  /** In a valid store, listing the opinions on a statement gives exactly those the view holds
      on it. */
  lemma ListedAreHeld(db: Db, id: nat, ar: Arity)
    requires GoodArity(ar) && Valid(db, ar) && ById(db.statements, id).Some?
    ensures var list := OpinionsFromCache(db.signers, OpinionRowsOn(db.opinions, id));
            list.Some? && ListsHeld(db, ById(db.statements, id).value.contents, list.value)
  {
    hide Valid, OpinionsFromCache, ById, View, KeyIn, OpinionOf, Keep;
    var os := OpinionRowsOn(db.opinions, id);
    var c := ById(db.statements, id).value.contents;
    CacheAgrees(db, os, ar);
    var list := OpinionsFromCache(db.signers, os).value;
    assert forall o :: o in os <==> o in db.opinions && o.data.statementId == id;
    forall j | 0 <= j < |list|
      ensures KeyIn(db.statements, os[j].data) == Key(c, list[j].data.signer)
      ensures Key(c, list[j].data.signer) in View(db)
      ensures list[j].data == OpinionWith(list[j].data.signer, View(db)[Key(c, list[j].data.signer)])
    {
      ListedRowIsHeld(db, os[j], ar);
    }
    forall j, k | 0 <= j < k < |list| ensures list[j].data.signer != list[k].data.signer {
      RowsDiffer(db, id, j, k, ar);
    }
    forall k | k in View(db) && k.statement == c ensures exists x | x in list :: x.data.signer == k.signer {
      var o := HeldIsListed(db, k, id, ar);
      var j :| 0 <= j < |os| && os[j] == o;
      assert list[j] in list;
    }
  }

  /** The same, whatever the arities for which the store is valid. */
  lemma AlwaysHeld(db: Db, id: nat)
    ensures forall ar: Arity | GoodArity(ar) && Valid(db, ar) && ById(db.statements, id).Some? ::
              var list := OpinionsFromCache(db.signers, OpinionRowsOn(db.opinions, id));
              list.Some? && ListsHeld(db, ById(db.statements, id).value.contents, list.value)
  {
    hide Valid, ListsHeld, OpinionsFromCache;
    forall ar: Arity | GoodArity(ar) && Valid(db, ar) && ById(db.statements, id).Some?
      ensures var list := OpinionsFromCache(db.signers, OpinionRowsOn(db.opinions, id));
              list.Some? && ListsHeld(db, ById(db.statements, id).value.contents, list.value)
    {
      ListedAreHeld(db, id, ar);
    }
  }

  lemma ListedRowIsHeld(db: Db, o: Row<OpinionData>, ar: Arity)
    requires GoodArity(ar) && Valid(db, ar) && o in db.opinions
    ensures var k := KeyIn(db.statements, o.data);
            && ById(db.statements, o.data.statementId).Some?
            && k.statement == ById(db.statements, o.data.statementId).value.contents
            && k in View(db) && View(db)[k] == o.data.stored
            && OpinionOf(db.statements, o.data) == Some(OpinionWith(k.signer, o.data.stored))
  {
    hide OpinionOf, MapOf, SignerOf, Increasing, Faithful, CacheCovers;
    KeysAreDistinct(db, ar);
    MapRepresents(db.opinions, Naming(db.statements));
    OpinionReads(db, o, ar);
    KeyOfPair(db, o.data);
  }

  lemma RowsDiffer(db: Db, id: nat, j: nat, k: nat, ar: Arity)
    requires GoodArity(ar) && Valid(db, ar) && j < k < |OpinionRowsOn(db.opinions, id)|
    ensures var os := OpinionRowsOn(db.opinions, id); KeyIn(db.statements, os[j].data) != KeyIn(db.statements, os[k].data)
  {
    hide KeyIn, CacheCovers, ValidStatements, Keep, Increasing, IsSignerRow, ById;
    var os := OpinionRowsOn(db.opinions, id);
    KeysAreDistinct(db, ar);
    assert os[j] in os && os[k] in os;
    KeepIncreases(db.opinions, (o: Row<OpinionData>) => o.data.statementId == id);
    EarlierIsLess(os, j, k);
    hide Valid;
    var f := Naming(db.statements);
    assert f(os[j].data) == KeyIn(db.statements, os[j].data) && f(os[k].data) == KeyIn(db.statements, os[k].data);
  }

  lemma HeldIsListed(db: Db, k: Key, id: nat, ar: Arity) returns (o: Row<OpinionData>)
    requires GoodArity(ar) && Valid(db, ar) && k in View(db)
    requires ById(db.statements, id).Some? && ById(db.statements, id).value.contents == k.statement
    ensures o in db.opinions && o.data.statementId == id && KeyIn(db.statements, o.data) == k
  {
    hide MapOf, SignerOf, Increasing, Faithful, CacheCovers, ById;
    KeysAreDistinct(db, ar);
    MapRepresents(db.opinions, Naming(db.statements));
    o :| o in db.opinions && KeyIn(db.statements, o.data) == k;
    KeyOfPair(db, o.data);
    OneRowOfContents(db.statements, o.data.statementId, id, ar);
  }

  lemma OneRowOfContents(t: Table<StatementData>, i: nat, j: nat, ar: Arity)
    requires ValidStatements(t, ar) && ById(t, i).Some? && ById(t, j).Some?
    requires ById(t, i).value.contents == ById(t, j).value.contents
    ensures i == j
  {
    hide Increasing, Faithful;
    assert Row(i, ById(t, i).value) in t && Row(j, ById(t, j).value) in t;
  }

  /** If no template fits, the statement is persisted with its e-mail addresses hashed. */
  function HashStatementEmails(s: Statement): Statement {
    Statement(s.name, seq(|s.entities|, k requires 0 <= k < |s.entities| => HashEmails(s.entities[k])))
  }

  function PersistHashing(db: Db, s: Statement): (Db, Outcome<Persisted<Statement>>) {
    PersistStatement(db, if HasTemplate(db.templates, s) then s else HashStatementEmails(s))
  }

  /** The form that is persisted: the statement itself if a template fits it, and otherwise the
      one in which each e-mail address has become its hash, and nothing else has changed. */
  lemma HashedWithoutTemplate(db: Db, s: Statement) returns (form: Statement)
    ensures PersistHashing(db, s) == PersistStatement(db, form)
    ensures HasTemplate(db.templates, s) ==> form == s
    ensures form.name == s.name && |form.entities| == |s.entities|
    ensures !HasTemplate(db.templates, s) ==> forall k | 0 <= k < |s.entities| ::
              form.entities[k] == if s.entities[k].EMail? then HashValue(SHA256_BASE64(s.entities[k].address)) else s.entities[k]
  {
    hide PersistStatement, HasTemplate;
    form := if HasTemplate(db.templates, s) then s else HashStatementEmails(s);
  }

  function ConvertRows(rows: Table<StatementData>): Option<seq<Row<Statement>>> {
    if rows == [] then Some([])
    else
      match (ReadContents(rows[0].data.contents), ConvertRows(rows[1..]))
      case (Some(s), Some(rest)) => Some([Row(rows[0].id, s)] + rest)
      case _ => None
  }

  class Storage {
    var statements: Table<StatementData>
    var opinions: Table<OpinionData>
    var privateKeys: seq<PrivateKey>
    var templates: map<nat, Template>
    var signers: map<nat, PublicKey>
    var ownKey: OwnKey

    function State(): Db
      reads this
    {
      Db(statements, opinions, privateKeys, templates, signers)
    }

    /** Open an existing database; the caches are empty and the own key a placeholder. */
    constructor (db: Db, placeholder: OwnKey)
      ensures State() == db.(templates := map[], signers := map[]) && ownKey == placeholder
    {
      statements, opinions, privateKeys := db.statements, db.opinions, db.privateKeys;
      templates, signers := map[], map[];
      ownKey := placeholder;
    }

    method HasMatchingTemplate(s: Statement) returns (yes: bool)
      ensures yes <==> HasTemplate(templates, s)
    {
      if s.name == "template" {
        if |s.entities| == 1 {
          if s.entities[0].TemplateEntity? {
            return true;
          }
        }
      }
      var ids := templates.Keys;
      while ids != {}
        invariant ids <= templates.Keys
        invariant forall id | id in templates && id !in ids :: !Matches(s, templates[id])
        decreases ids
      {
        var id :| id in ids;
        var fits := MatchesTemplate(s, templates[id]);
        if fits {
          return true;
        }
        ids := ids - {id};
      }
      return false;
    }

    /** The insert, refused by the unique constraint or returning the new row's id. */
    method TryInsertStatement(d: StatementData) returns (r: Option<nat>)
      modifies this`statements
      ensures r.None? <==> Violates(old(statements), d.contents)
      ensures r.None? ==> statements == old(statements)
      ensures r.Some? ==> r.value == NextId(old(statements)) && statements == Insert(old(statements), d)
    {
      if Violates(statements, d.contents) {
        return None;
      }
      r := Some(NextId(statements));
      statements := Insert(statements, d);
    }

    method Persist(s: Statement) returns (r: Outcome<Persisted<Statement>>)
      modifies this`statements, this`templates, this`signers
      ensures (State(), r) == PersistStatement(old(State()), s)
    {
      hide EntityText, CidrKeys, HasTemplate;
      var known := HasMatchingTemplate(s);
      if !known {
        return NoTemplate;
      }
      if s.entities == [] {
        return Panicked;
      }
      var contents := ContentsOf(s);
      var min, max := CidrMinMax(s.entities[0]);
      var found := Select(statements, contents);
      var id: nat;
      match found {
        case Some(row) =>
          id := row.id;
        case None =>
          var inserted := TryInsertStatement(StatementData(contents, min, max));
          match inserted {
            case Some(new_id) =>
              id := new_id;
            case None =>
              return Panicked;
          }
      }
      if s.name == "template" && s.entities[0].TemplateEntity? {
        templates := templates[id := s.entities[0].template];
      }
      if s.name == "signer" && s.entities[0].Signer? {
        signers := signers[id := s.entities[0].key];
      }
      return Done(Persisted(id, found.None?, s));
    }

    method PersistStatementHashingEmails(s: Statement) returns (r: Outcome<Persisted<Statement>>)
      modifies this`statements, this`templates, this`signers
      ensures (State(), r) == PersistHashing(old(State()), s)
    {
      var known := HasMatchingTemplate(s);
      if known {
        r := Persist(s);
      } else {
        r := Persist(HashStatementEmails(s));
      }
    }

    method PersistOpinion(o: Opinion, statementId: nat) returns (r: Outcome<Persisted<Opinion>>)
      modifies this`statements, this`templates, this`signers, this`opinions
      ensures (State(), r) == Store.PersistOpinion(old(State()), o, statementId)
    {
      hide PersistStatement, CanInsert, PreviousOpinion, DeleteOpinion;
      var signer := Persist(SignerStatement(o.signer));
      if !signer.Done? {
        return Panicked;
      }
      var d := OpinionData(statementId, signer.value.id, StoredOf(o.data, o.signature));
      var prev := PreviousOpinion(opinions, statementId, signer.value.id);
      if prev.Some? {
        if Older(prev.value.data.stored, d.stored) {
          opinions := DeleteOpinion(opinions, prev.value.id);
        } else {
          return Done(Persisted(prev.value.id, false, o));
        }
      }
      if !CanInsert(State(), d) {
        return Panicked;
      }
      var id := NextId(opinions);
      opinions := Insert(opinions, d);
      return Done(Persisted(id, true, o));
    }

    /** `None` is the failed unwrap of a signer that is not in the cache. */
    method ListOpinionsOn(id: nat) returns (r: Option<seq<Row<Opinion>>>)
      ensures r == OpinionsFromCache(signers, OpinionRowsOn(opinions, id))
      ensures forall ar: Arity | GoodArity(ar) && Valid(State(), ar) && ById(statements, id).Some? ::
                r.Some? && ListsHeld(State(), ById(statements, id).value.contents, r.value)
    {
      hide Valid, ListsHeld, View, ById, Keep, OpinionWith;
      AlwaysHeld(State(), id);
      var rows := OpinionRowsOn(opinions, id);
      FromCacheShape(signers, rows);
      var list: seq<Row<Opinion>> := [];
      for k := 0 to |rows|
        invariant |list| == k
        invariant forall j | 0 <= j < k :: rows[j].data.signerId in signers
        invariant forall j | 0 <= j < k ::
                    list[j] == Row(rows[j].id, OpinionWith(signers[rows[j].data.signerId], rows[j].data.stored))
      {
        if rows[k].data.signerId !in signers {
          return None;
        }
        list := list + [Row(rows[k].id, OpinionWith(signers[rows[k].data.signerId], rows[k].data.stored))];
      }
      assert OpinionsFromCache(signers, rows).value == list;
      return Some(list);
    }

    method ListAllTemplates() returns (es: Option<seq<Entity>>)
      ensures es == AllTemplates(statements)
    {
      es := AllTemplates(statements);
    }

    method CleanupOpinions(today: nat)
      modifies this`opinions
      ensures State() == Store.CleanupOpinions(old(State()), today)
    {
      opinions := Keep(opinions, (r: Row<OpinionData>) => !Expired(r.data.stored, today));
    }

    method CleanupStatements()
      modifies this`statements
      ensures State() == Store.CleanupStatements(old(State()))
    {
      var db := State();
      statements := Keep(statements, (r: Row<StatementData>) => Referenced(db, r.id));
    }

    method Cleanup(today: nat)
      modifies this`opinions, this`statements
      ensures State() == Store.Cleanup(old(State()), today)
      ensures forall o :: o in opinions <==> o in old(opinions) && today <= o.data.stored.date + o.data.stored.valid
    {
      CleanupOpinions(today);
      CleanupStatements();
    }
  
    /** One loop over the joined rows: a row of the statement before it joins the last entry,
        any other starts a new one. The last entry is there when it is needed, as no row has
        id 0. `None` where a row does not read back. */
    method ListStatementsNamedSigned(name: string, date: nat) returns (r: Option<seq<SignedStatement>>)
      requires Increasing(statements)
      ensures r == ListNamed(State(), name, date)
    {
      hide ReadContents, OpinionOf, IsGrouping, SignedOf, Groups, JoinedRows, Flatten, AllSigned, Increasing;
      ghost var gs: seq<Group> := [];
      var rows := JoinedRows(statements, opinions, name, date);
      JoinedMembers(statements, opinions, name, date);
      GroupsAreGrouping(statements, opinions, name, date);
      GroupsOfRows(statements, opinions, name, date);
      UniqueIds(statements);
      NoGroups();
      var last := 0;
      var signed: seq<SignedStatement> := [];
      for k := 0 to |rows|
        invariant IsGrouping(gs, rows[..k])
        invariant |signed| == |gs| && forall j | 0 <= j < |gs| :: SignedOf(statements, gs[j]) == Some(signed[j])
        invariant last == if gs == [] then 0 else gs[|gs| - 1].statement.id
        invariant forall j | 0 <= j < |gs| :: gs[j].statement in statements
      {
        var row := rows[k];
        assert row in rows;
        var statement := ReadContents(row.statement.data.contents);
        var opinion := OpinionOf(statements, row.opinion.data);
        if statement.None? || opinion.None? {
          Unreadable(statements, Groups(statements, opinions, name, date), rows, row);
          return None;
        }
        assert rows[..k + 1] == rows[..k] + [row];
        if row.statement.id == last {
          var len := |signed|;
          ExtendLast(statements, gs, rows[..k], row, signed[len - 1], opinion.value);
          gs := gs[len - 1 := Group(row.statement, gs[len - 1].opinions + [row.opinion])];
          signed := signed[len - 1 := SignedStatement(signed[len - 1].statement, signed[len - 1].opinions + [opinion.value])];
        } else {
          StartNew(statements, gs, rows[..k], row, statement.value, opinion.value);
          gs := gs + [Group(row.statement, [row.opinion])];
          signed := signed + [SignedStatement(statement.value, [opinion.value])];
          last := row.statement.id;
        }
      }
      assert rows[..|rows|] == rows;
      GroupingIsUnique(gs, Groups(statements, opinions, name, date), rows);
      AllSignedIs(statements, gs, signed);
      return Some(signed);
    }

    method GetSyncInfos(date: nat) returns (infos: SyncInfos)
      ensures infos == Summaries.GetSyncInfos(State(), date)
    {
      var rows := SyncRows(statements, opinions, date);
      SortedInOrder(rows);
      var grouped := GroupConsecutive(Sorted(rows));
      infos := SyncInfos(date, grouped);
    }

    /** `None` where a row found does not read back. */
    method FindStatementsReferencing(e: Entity) returns (r: Option<seq<Row<Statement>>>)
      ensures r == ConvertRows(FindReferencing(statements, e))
    {
      hide ReadContents, FindReferencing, ConvertRows;
      var rows := FindReferencing(statements, e);
      var list: seq<Row<Statement>> := [];
      ConvertRowsShape(rows);
      for k := 0 to |rows|
        invariant |list| == k
        invariant forall j | 0 <= j < k ::
                    ReadContents(rows[j].data.contents).Some? && list[j] == Row(rows[j].id, ReadContents(rows[j].data.contents).value)
      {
        var statement := ReadContents(rows[k].data.contents);
        if statement.None? {
          return None;
        }
        list := list + [Row(rows[k].id, statement.value)];
      }
      assert ConvertRows(rows).value == list;
      return Some(list);
    }

    method FindStatementsAbout(e: Entity) returns (r: Option<seq<Row<Statement>>>)
      requires e.EMail? ==> '@' in e.address
      ensures r == ConvertRows(FindAbout(statements, e))
    {
      hide FindReferencing, ConvertRows, ReadContents, Asns;
      var keys := AllLookupKeys(e);
      var found := FindEach(keys);
      var first := FindAll(statements, keys);
      if found.None? {
        ConvertAppend(first, FindAll(statements, Asns(first)));
        return None;
      }
      var asns := [];
      AsnsOfConverted(first);
      for k := 0 to |found.value|
        invariant asns == AsnsIn(found.value[..k])
      {
        var x := found.value[k];
        AsnsInSnoc(found.value[..k], x);
        assert found.value[..k + 1] == found.value[..k] + [x];
        if x.data.name == "asn" && |x.data.entities| > 1 {
          asns := asns + [x.data.entities[1]];
        }
      }
      assert found.value[..|found.value|] == found.value;
      var more := FindEach(asns);
      ConvertAppend(first, FindAll(statements, asns));
      if more.None? {
        return None;
      }
      return Some(found.value + more.value);
    }

    /** One lookup after the other, the results appended. */
    method FindEach(es: seq<Entity>) returns (r: Option<seq<Row<Statement>>>)
      ensures r == ConvertRows(FindAll(statements, es))
    {
      hide FindReferencing, ReadContents;
      var list: seq<Row<Statement>> := [];
      for k := 0 to |es|
        invariant ConvertRows(FindAll(statements, es[..k])) == Some(list)
      {
        var some := FindStatementsReferencing(es[k]);
        assert es[..k + 1] == es[..k] + [es[k]];
        FindAllSnoc(statements, es[..k], es[k]);
        ConvertAppend(FindAll(statements, es[..k]), FindReferencing(statements, es[k]));
        if some.None? {
          assert es == es[..k + 1] + es[k + 1..];
          FindAllSplit(statements, es[..k + 1], es[k + 1..]);
          ConvertAppend(FindAll(statements, es[..k + 1]), FindAll(statements, es[k + 1..]));
          return None;
        }
        list := list + some.value;
      }
      assert es[..|es|] == es;
      return Some(list);
    }

    method ReadTemplates()
      modifies this`templates
      ensures templates == Startup.ReadTemplates(statements, old(templates))
    {
      hide RowTemplate;
      for k := 0 to |statements|
        invariant Startup.ReadTemplates(statements[k..], templates) == Startup.ReadTemplates(statements, old(templates))
      {
        assert statements[k..][1..] == statements[k + 1..];
        var template := RowTemplate(statements[k].data.contents);
        if template.Some? {
          templates := templates[statements[k].id := template.value];
        }
      }
    }

    method ReadSigners()
      modifies this`signers
      ensures signers == Startup.ReadSigners(statements, old(signers))
    {
      hide RowSigner;
      for k := 0 to |statements|
        invariant Startup.ReadSigners(statements[k..], signers) == Startup.ReadSigners(statements, old(signers))
      {
        assert statements[k..][1..] == statements[k + 1..];
        var key := RowSigner(statements[k].data.contents);
        if key.Some? {
          signers := signers[statements[k].id := key.value];
        }
      }
    }

    method SignStatementDefault(s: Statement, key: KeyPair, today: U32) returns (r: Outcome<Persisted<Opinion>>)
      modifies this`statements, this`templates, this`signers, this`opinions
      ensures (State(), r) == SignDefault(old(State()), s, key, today)
    {
      hide PersistStatement, Store.PersistOpinion, StatementText;
      var opinion := SignUsing(DefaultOpinion(today), StatementText(s), key);
      var persisted := Persist(s);
      match persisted {
        case Done(p) =>
          r := PersistOpinion(opinion, p.id);
        case NoTemplate =>
          r := NoTemplate;
        case Panicked =>
          r := Panicked;
      }
    }

    method EnsureOwnKey(generated: KeyPair) returns (r: Outcome<OwnKey>)
      modifies this
      ensures (State(), r) == Startup.EnsureOwnKey(old(State()), generated)
      ensures ownKey == if r.Done? then r.value else old(ownKey)
    {
      hide PersistStatement, ReadContents;
      if privateKeys != [] {
        var row := ById(statements, privateKeys[0].signerId);
        if row.None? {
          return Panicked;
        }
        var statement := ReadContents(row.value.contents);
        if statement.None? || statement.value.entities == [] {
          return Panicked;
        }
        ownKey := OwnKey(statement.value.entities[0], privateKeys[0].key);
      } else {
        var persisted := Persist(SignerStatement(generated.public));
        match persisted {
          case Done(p) =>
            privateKeys := [PrivateKey(p.id, generated)];
            ownKey := OwnKey(Signer(generated.public), generated);
          case NoTemplate =>
            return NoTemplate;
          case Panicked =>
            return Panicked;
        }
      }
      return Done(ownKey);
    }

    /** Complete the database: templates, own key, own opinions; then fill the caches. */
    method InitializeDatabase(generated: KeyPair, today: U32) returns (r: Outcome<OwnKey>)
      modifies this
      ensures (State(), r) == Initialize(old(State()), generated, today)
      ensures r.Done? ==> r.value == ownKey
    {
      hide PersistStatement, SignDefault, Startup.EnsureOwnKey, Startup.ReadTemplates, Startup.ReadSigners;
      var root := Persist(TemplateStatement(ROOT_TEMPLATE));
      if !root.Done? {
        return Failed(root);
      }
      var signer := Persist(TemplateStatement(SIGNER_TEMPLATE));
      if !signer.Done? {
        return Failed(signer);
      }
      r := EnsureOwnKey(generated);
      if !r.Done? {
        return;
      }
      var key := ownKey.key;
      var first := SignStatementDefault(TemplateStatement(ROOT_TEMPLATE), key, today);
      if !first.Done? {
        return Failed(first);
      }
      var second := SignStatementDefault(TemplateStatement(SIGNER_TEMPLATE), key, today);
      if !second.Done? {
        return Failed(second);
      }
      ReadTemplates();
      ReadSigners();
    }
  }

  lemma {:induction false} ConvertRowsShape(rows: Table<StatementData>)
    ensures var l := ConvertRows(rows);
            && (l.Some? <==> forall j | 0 <= j < |rows| :: ReadContents(rows[j].data.contents).Some?)
            && (l.Some? ==> |l.value| == |rows| && forall j | 0 <= j < |rows| ::
                  l.value[j] == Row(rows[j].id, ReadContents(rows[j].data.contents).value))
  {
    hide ReadContents;
    if rows != [] {
      ConvertRowsShape(rows[1..]);
      assert rows == [rows[0]] + rows[1..];
    }
  }

  lemma ConvertAppend(rows: Table<StatementData>, more: Table<StatementData>)
    ensures var (a, b) := (ConvertRows(rows), ConvertRows(more));
            ConvertRows(rows + more) == if a.Some? && b.Some? then Some(a.value + b.value) else None
  {
    hide ReadContents, ConvertRows;
    ConvertRowsShape(rows);
    ConvertRowsShape(more);
    ConvertRowsShape(rows + more);
    var l := ConvertRows(rows + more);
    if l.Some? {
      forall j | 0 <= j < |rows| ensures ReadContents(rows[j].data.contents).Some? {
        assert (rows + more)[j] == rows[j];
      }
      forall j | 0 <= j < |more| ensures ReadContents(more[j].data.contents).Some? {
        assert (rows + more)[|rows| + j] == more[j];
      }
      assert l.value == ConvertRows(rows).value + ConvertRows(more).value;
    }
  }

  lemma {:induction false} FindAllSplit(t: Table<StatementData>, es: seq<Entity>, fs: seq<Entity>)
    ensures FindAll(t, es + fs) == FindAll(t, es) + FindAll(t, fs)
  {
    hide FindReferencing;
    if es == [] {
      assert es + fs == fs;
    } else {
      FindAllSplit(t, es[1..], fs);
      assert (es + fs)[1..] == es[1..] + fs;
    }
  }

  lemma FindAllSnoc(t: Table<StatementData>, es: seq<Entity>, e: Entity)
    ensures FindAll(t, es + [e]) == FindAll(t, es) + FindReferencing(t, e)
  {
    hide FindReferencing;
    FindAllSplit(t, es, [e]);
    assert FindAll(t, [e][1..]) == [];
  }

  /** The second entities of the `asn` statements in a list. */
  function AsnsIn(list: seq<Row<Statement>>): seq<Entity> {
    if list == [] then []
    else
      var rest := AsnsIn(list[1..]);
      var s := list[0].data;
      if s.name == "asn" && |s.entities| > 1 then [s.entities[1]] + rest else rest
  }

  lemma {:induction false} AsnsInSnoc(list: seq<Row<Statement>>, x: Row<Statement>)
    ensures AsnsIn(list + [x]) ==
            AsnsIn(list) + if x.data.name == "asn" && |x.data.entities| > 1 then [x.data.entities[1]] else []
  {
    if list == [] {
      assert list + [x] == [x];
      assert AsnsIn([x][1..]) == [];
    } else {
      AsnsInSnoc(list[1..], x);
      assert (list + [x])[1..] == list[1..] + [x];
    }
  }

  lemma {:induction false} AsnsOfConverted(rows: Table<StatementData>)
    ensures ConvertRows(rows).Some? ==> AsnsIn(ConvertRows(rows).value) == Asns(rows)
  {
    hide ReadContents;
    if rows != [] {
      AsnsOfConverted(rows[1..]);
      if ConvertRows(rows).Some? {
        var l := ConvertRows(rows).value;
        assert l[1..] == ConvertRows(rows[1..]).value;
      }
    }
  }

  lemma {:induction false} JoinedMembers(t: Table<StatementData>, os: Table<OpinionData>, name: string, date: nat)
    ensures forall j | j in JoinedRows(t, os, name, date) :: j.statement in t && j.opinion in os
  {
    if t != [] {
      JoinedMembers(t[1..], os, name, date);
      var here := OpinionsOn(os, t[0].id, date);
      PairsShape(t[0], here);
      forall j | j in Pairs(t[0], here) ensures j.statement == t[0] && j.opinion in os {
        var k :| 0 <= k < |here| && Pairs(t[0], here)[k] == j;
        assert here[k] in here;
      }
    }
  }

  /** A row that does not read back spoils the whole reply. */
  lemma Unreadable(t: Table<StatementData>, gs: seq<Group>, rows: seq<Joined>, row: Joined)
    requires IsGrouping(gs, rows) && row in rows
    requires ReadContents(row.statement.data.contents).None? || OpinionOf(t, row.opinion.data).None?
    ensures AllSigned(t, gs).None?
  {
    hide ReadContents, OpinionOf;
    if AllSigned(t, gs).Some? { ReadableRows(t, gs); }
  }

  lemma {:induction false} ReadableRows(t: Table<StatementData>, gs: seq<Group>)
    requires AllSigned(t, gs).Some?
    ensures forall row | row in Flatten(gs) ::
              ReadContents(row.statement.data.contents).Some? && OpinionOf(t, row.opinion.data).Some?
  {
    hide ReadContents, OpinionOf;
    if gs != [] {
      ReadableRows(t, gs[1..]);
      var g := gs[0];
      PairsShape(g.statement, g.opinions);
      ReadableOpinions(t, g.opinions);
      forall row | row in Pairs(g.statement, g.opinions) ensures row.statement == g.statement && OpinionOf(t, row.opinion.data).Some? {
        var k :| 0 <= k < |g.opinions| && Pairs(g.statement, g.opinions)[k] == row;
        assert g.opinions[k] in g.opinions;
      }
    }
  }

  lemma {:induction false} ReadableOpinions(t: Table<StatementData>, os: Table<OpinionData>)
    requires OpinionsOf(t, os).Some?
    ensures forall o | o in os :: OpinionOf(t, o.data).Some?
  {
    hide OpinionOf;
    if os != [] { ReadableOpinions(t, os[1..]); }
  }

  lemma {:induction false} OpinionsOfSnoc(t: Table<StatementData>, os: Table<OpinionData>, o: Row<OpinionData>)
    requires OpinionsOf(t, os).Some? && OpinionOf(t, o.data).Some?
    ensures OpinionsOf(t, os + [o]) == Some(OpinionsOf(t, os).value + [OpinionOf(t, o.data).value])
  {
    hide OpinionOf;
    if os == [] {
      assert os + [o] == [o];
      assert OpinionsOf(t, [o][1..]) == Some([]);
      var x := OpinionOf(t, o.data).value;
      assert [] + [x] == [x] + [] == [x];
      assert OpinionsOf(t, os).value == [];
    } else {
      OpinionsOfSnoc(t, os[1..], o);
      assert (os + [o])[1..] == os[1..] + [o];
      var first, rest, last := [OpinionOf(t, os[0].data).value], OpinionsOf(t, os[1..]).value, [OpinionOf(t, o.data).value];
      assert first + (rest + last) == (first + rest) + last;
    }
  }

  lemma ExtendLast(t: Table<StatementData>, gs: seq<Group>, rows: seq<Joined>, row: Joined, s: SignedStatement, o: Opinion)
    requires IsGrouping(gs, rows) && gs != [] && row.statement == gs[|gs| - 1].statement
    requires SignedOf(t, gs[|gs| - 1]) == Some(s) && OpinionOf(t, row.opinion.data) == Some(o)
    ensures var g := Group(row.statement, gs[|gs| - 1].opinions + [row.opinion]);
            && IsGrouping(gs[|gs| - 1 := g], rows + [row])
            && SignedOf(t, g) == Some(SignedStatement(s.statement, s.opinions + [o]))
  {
    hide ReadContents, OpinionOf;
    var n := |gs| - 1;
    var init, old_g := gs[..n], gs[n];
    var g := Group(row.statement, old_g.opinions + [row.opinion]);
    assert gs == init + [old_g] && gs[n := g] == init + [g];
    FlattenSnoc(init, old_g);
    FlattenSnoc(init, g);
    PairsSnoc(row.statement, old_g.opinions, row.opinion);
    OpinionsOfSnoc(t, old_g.opinions, row.opinion);
  }

  lemma StartNew(t: Table<StatementData>, gs: seq<Group>, rows: seq<Joined>, row: Joined, s: Statement, o: Opinion)
    requires IsGrouping(gs, rows) && (gs != [] ==> row.statement.id != gs[|gs| - 1].statement.id)
    requires ReadContents(row.statement.data.contents) == Some(s) && OpinionOf(t, row.opinion.data) == Some(o)
    ensures var g := Group(row.statement, [row.opinion]);
            && IsGrouping(gs + [g], rows + [row])
            && SignedOf(t, g) == Some(SignedStatement(s, [o]))
  {
    hide ReadContents, OpinionOf;
    var g := Group(row.statement, [row.opinion]);
    FlattenSnoc(gs, g);
    assert Pairs(row.statement, [row.opinion]) == [Joined(row.statement, row.opinion)] + Pairs(row.statement, [row.opinion][1..]);
    assert OpinionsOf(t, []) == Some([]);
    OpinionsOfSnoc(t, [], row.opinion);
    assert [] + [row.opinion] == [row.opinion] && [] + [o] == [o];
  }

  lemma {:induction false} AllSignedIs(t: Table<StatementData>, gs: seq<Group>, l: seq<SignedStatement>)
    requires |l| == |gs| && forall j | 0 <= j < |gs| :: SignedOf(t, gs[j]) == Some(l[j])
    ensures AllSigned(t, gs) == Some(l)
  {
    hide SignedOf;
    if gs != [] {
      AllSignedIs(t, gs[1..], l[1..]);
      assert l == [l[0]] + l[1..];
    }
  }
}
