/** The opinion store as a value: its tables, its two caches, and what each operation makes
    of them. Class `Storage` holds one and is proved against these functions. */
module Store {
  import opened Entities
  import opened Options
  import opened Grammar
  import opened RoundTrip
  import opened CidrIndex
  import opened Opinions
  import opened Tables

  /** The text columns of a statement row. */
  datatype Contents = Contents(
    name: string, e1: string, e2: Option<string>, e3: Option<string>, e4: Option<string>)

  datatype StatementData = StatementData(
    contents: Contents, cidrMin: Option<string>, cidrMax: Option<string>)

  /** The value columns of an opinion row; its comment column is never written. */
  datatype Stored = Stored(date: U32, valid: U16, serial: U8, certainty: I8, signature: Base64Text)

  datatype OpinionData = OpinionData(statementId: nat, signerId: nat, stored: Stored)

  datatype KeyPair = KeyPair(public: PublicKey, secret: string)

  datatype PrivateKey = PrivateKey(signerId: nat, key: KeyPair)

  datatype Db = Db(
    statements: Table<StatementData>,
    opinions: Table<OpinionData>,
    privateKeys: seq<PrivateKey>,
    templates: map<nat, Template>,
    signers: map<nat, PublicKey>)

  datatype Persisted<T> = Persisted(id: nat, inserted: bool, data: T)

  /** `Panicked` is a failed `unwrap` or `expect`. */
  datatype Outcome<T> = Done(value: T) | NoTemplate | Panicked

  /* ---- rows and statements ---- */

  function Column(s: Statement, k: nat): Option<string> {
    if k < |s.entities| then Some(EntityText(s.entities[k])) else None
  }

  /** A fifth entity and any after it have no column. */
  function ContentsOf(s: Statement): Contents
    requires s.entities != []
  {
    Contents(s.name, EntityText(s.entities[0]), Column(s, 1), Column(s, 2), Column(s, 3))
  }

  function DataOf(s: Statement): StatementData
    requires s.entities != []
  {
    var keys := CidrKeys(s.entities[0]);
    StatementData(ContentsOf(s), keys.0, keys.1)
  }

  function OptionalColumn(c: Option<string>): seq<string> {
    if c.Some? then [c.value] else []
  }

  function ReadColumns(cols: seq<string>): Option<seq<Entity>> {
    if cols == [] then Some([])
    else
      match (EntityFromText(cols[0]), ReadColumns(cols[1..]))
      case (Ok(_, e), Some(es)) => Some([e] + es)
      case _ => None
  }

  /** The statement a row stands for; `None` where reading it back would panic. */
  function ReadContents(c: Contents): Option<Statement> {
    match ReadColumns([c.e1] + OptionalColumn(c.e2) + OptionalColumn(c.e3) + OptionalColumn(c.e4))
    case None => None
    case Some(es) => Some(Statement(c.name, es))
  }

  lemma {:induction false} ColumnsRead(es: seq<Entity>)
    ensures ReadColumns(Texts(EntityText, es)) == Some(es) <==> AllPrintable(es)
  {
    hide EntityFromText, EntityText, Printable;
    if es != [] {
      EntityRoundTrip(es[0]);
      EntityReadsWhole(EntityText(es[0]));
      ColumnsRead(es[1..]);
      assert es == [es[0]] + es[1..];
      assert AllPrintable(es) <==> Printable(es[0]) && AllPrintable(es[1..]);
    }
  }

  lemma EntityReadsWhole(t: string)
    ensures EntityFromText(t).Ok? ==> EntityFromText(t).rest == ""
  {
    hide ParseEntity;
  }

  /** A row reads back as the statement it was made from exactly when the statement has at
      most four entities and all of them are printable. */
  lemma RowReadsBack(s: Statement)
    requires s.entities != []
    ensures ReadContents(ContentsOf(s)) == Some(s) <==> |s.entities| <= 4 && AllPrintable(s.entities)
  {
    hide EntityFromText, EntityText, Printable, ReadColumns;
    var n := if |s.entities| <= 4 then |s.entities| else 4;
    var c := ContentsOf(s);
    var cols := [c.e1] + OptionalColumn(c.e2) + OptionalColumn(c.e3) + OptionalColumn(c.e4);
    assert cols == Texts(EntityText, s.entities[..n]);
    ColumnsRead(s.entities[..n]);
    if n == |s.entities| {
      assert s.entities[..n] == s.entities;
    } else {
      ReadColumnsLength(cols);
    }
  }

  lemma {:induction false} ReadColumnsLength(cols: seq<string>)
    ensures ReadColumns(cols).Some? ==> |ReadColumns(cols).value| == |cols|
  {
    hide EntityFromText;
    if cols != [] { ReadColumnsLength(cols[1..]); }
  }

  /* ---- templates ---- */

  predicate IsTemplateStatement(s: Statement) {
    s.name == "template" && |s.entities| == 1 && s.entities[0].TemplateEntity?
  }

  /** Template statements are always accepted, to allow bootstrapping. */
  predicate HasTemplate(templates: map<nat, Template>, s: Statement) {
    IsTemplateStatement(s) || exists id | id in templates :: Matches(s, templates[id])
  }

  /* ---- persisting a statement ---- */

  /** `name=? and entity_1=? [and entity_2=? [and entity_3=? [and entity_4=?]]]`. Columns
      without a value to compare are not looked at, and the last value bound is that of
      the third entity. */
  predicate Pattern(row: Contents, c: Contents) {
    && row.name == c.name && row.e1 == c.e1
    && (c.e2.Some? ==> row.e2 == c.e2)
    && (c.e2.Some? && c.e3.Some? ==> row.e3 == c.e3)
    && (c.e2.Some? && c.e3.Some? && c.e4.Some? ==> row.e4 == c.e3)
  }

  function Select(t: Table<StatementData>, c: Contents): Option<Row<StatementData>> {
    Fetch(t, (d: StatementData) => Pattern(d.contents, c))
  }

  /** The unique constraint sees null columns as distinct, so it only binds full rows. */
  predicate Violates(t: Table<StatementData>, c: Contents) {
    c.e2.Some? && c.e3.Some? && c.e4.Some? && exists r | r in t :: r.data.contents == c
  }

  /** Templates and signers that were persisted are also kept in memory. */
  function Remember(db: Db, id: nat, s: Statement): Db
    requires s.entities != []
  {
    match s.entities[0]
    case TemplateEntity(t) => if s.name == "template" then db.(templates := db.templates[id := t]) else db
    case Signer(k) => if s.name == "signer" then db.(signers := db.signers[id := k]) else db
    case _ => db
  }

  function PersistStatement(db: Db, s: Statement): (Db, Outcome<Persisted<Statement>>) {
    if !HasTemplate(db.templates, s) then (db, NoTemplate)
    else if s.entities == [] then (db, Panicked)
    else
      match Select(db.statements, ContentsOf(s))
      case Some(row) => (Remember(db, row.id, s), Done(Persisted(row.id, false, s)))
      case None =>
        if Violates(db.statements, ContentsOf(s)) then (db, Panicked)
        else
          var id := NextId(db.statements);
          (Remember(db.(statements := Insert(db.statements, DataOf(s))), id, s), Done(Persisted(id, true, s)))
  }

  /* ---- persisting an opinion ---- */

  function StoredOf(d: UnsignedOpinion, signature: Base64Text): Stored {
    Stored(d.date, d.valid, d.serial, d.certainty, signature)
  }

  /** The previous opinion gives way to one of a later date, or of the same date and a
      higher serial number. */
  predicate Older(prev: Stored, next: Stored) {
    prev.date < next.date || (prev.date == next.date && prev.serial < next.serial)
  }

  function PreviousOpinion(t: Table<OpinionData>, statementId: nat, signerId: nat): Option<Row<OpinionData>> {
    Fetch(t, (d: OpinionData) => d.statementId == statementId && d.signerId == signerId)
  }

  function DeleteOpinion(t: Table<OpinionData>, id: nat): Table<OpinionData> {
    Keep(t, (r: Row<OpinionData>) => r.id != id)
  }

  /** The insert fails on a reference to no statement, or on a second row of the same
      statement, signer, date and serial number. */
  predicate CanInsert(db: Db, d: OpinionData) {
    && ById(db.statements, d.statementId).Some?
    && ById(db.statements, d.signerId).Some?
    && forall r | r in db.opinions ::
         !(r.data.statementId == d.statementId && r.data.signerId == d.signerId
           && r.data.stored.date == d.stored.date && r.data.stored.serial == d.stored.serial)
  }

  /** The part after the signer's row is known: keep the previous opinion, or replace it. */
  function WriteOpinion(db: Db, o: Opinion, d: OpinionData): (Db, Outcome<Persisted<Opinion>>) {
    var prev := PreviousOpinion(db.opinions, d.statementId, d.signerId);
    if prev.Some? && !Older(prev.value.data.stored, d.stored) then
      (db, Done(Persisted(prev.value.id, false, o)))
    else
      var db1 := if prev.Some? then db.(opinions := DeleteOpinion(db.opinions, prev.value.id)) else db;
      if !CanInsert(db1, d) then (db1, Panicked)
      else (db1.(opinions := Insert(db1.opinions, d)), Done(Persisted(NextId(db1.opinions), true, o)))
  }

  function PersistOpinion(db: Db, o: Opinion, statementId: nat): (Db, Outcome<Persisted<Opinion>>) {
    var (db1, signer) := PersistStatement(db, SignerStatement(o.signer));
    if !signer.Done? then (db1, Panicked)
    else WriteOpinion(db1, o, OpinionData(statementId, signer.value.id, StoredOf(o.data, o.signature)))
  }

  /* ---- merging what arrives from the network ---- */

  function PersistOpinions(db: Db, os: seq<Opinion>, statementId: nat): (Db, Outcome<()>)
    decreases |os|
  {
    if os == [] then (db, Done(()))
    else
      var (db1, r) := PersistOpinion(db, os[0], statementId);
      if r.Done? then PersistOpinions(db1, os[1..], statementId) else (db1, Panicked)
  }

  /** A broadcast statement without a template is refused. */
  function PersistSigned(db: Db, s: SignedStatement): (Db, Outcome<()>) {
    var (db1, r) := PersistStatement(db, s.statement);
    match r
    case Done(p) => PersistOpinions(db1, s.opinions, p.id)
    case NoTemplate => (db1, NoTemplate)
    case Panicked => (db1, Panicked)
  }

  /** In a response, a statement without a template is unexpected. */
  function Merge(db: Db, list: seq<SignedStatement>): (Db, Outcome<()>)
    decreases |list|
  {
    if list == [] then (db, Done(()))
    else
      var (db1, r) := PersistSigned(db, list[0]);
      if r.Done? then Merge(db1, list[1..]) else (db1, Panicked)
  }

  /* ---- cleanup ---- */

  predicate Expired(s: Stored, today: nat) {
    s.date + s.valid < today
  }

  function CleanupOpinions(db: Db, today: nat): Db {
    db.(opinions := Keep(db.opinions, (r: Row<OpinionData>) => !Expired(r.data.stored, today)))
  }

  /** The statements that opinions, their signers or the private key refer to. */
  predicate Referenced(db: Db, id: nat) {
    || (exists o | o in db.opinions :: o.data.statementId == id)
    || (exists o | o in db.opinions :: o.data.signerId == id)
    || (exists p | p in db.privateKeys :: p.signerId == id)
  }

  function CleanupStatements(db: Db): Db {
    db.(statements := Keep(db.statements, (r: Row<StatementData>) => Referenced(db, r.id)))
  }

  function Cleanup(db: Db, today: nat): Db {
    CleanupStatements(CleanupOpinions(db, today))
  }
}
