/** The opinions of one date on the statements of one name, grouped by statement, as they
    are sent in reply to a request. */
module Listing {
  import opened Entities
  import opened Options
  import opened RoundTrip
  import opened Opinions
  import opened Tables
  import opened Store
  import opened StoreInvariants
  import opened Registers
  import opened Views
  import opened Merging

  datatype Joined = Joined(statement: Row<StatementData>, opinion: Row<OpinionData>)

  function Pairs(r: Row<StatementData>, os: Table<OpinionData>): seq<Joined> {
    if os == [] then [] else [Joined(r, os[0])] + Pairs(r, os[1..])
  }

  function OpinionsOn(os: Table<OpinionData>, id: nat, date: nat): Table<OpinionData> {
    Keep(os, (o: Row<OpinionData>) => o.data.statementId == id && o.data.stored.date == date)
  }

  /** The join of statements and opinions for a name and a date, ordered by statement id. */
  function JoinedRows(t: Table<StatementData>, os: Table<OpinionData>, name: string, date: nat): seq<Joined> {
    if t == [] then []
    else (if t[0].data.contents.name == name then Pairs(t[0], OpinionsOn(os, t[0].id, date)) else [])
         + JoinedRows(t[1..], os, name, date)
  }

  datatype Group = Group(statement: Row<StatementData>, opinions: Table<OpinionData>)

  /** Each statement of the name that has opinions of the date, with these opinions. */
  function Groups(t: Table<StatementData>, os: Table<OpinionData>, name: string, date: nat): seq<Group> {
    if t == [] then []
    else
      var here := OpinionsOn(os, t[0].id, date);
      (if t[0].data.contents.name == name && here != [] then [Group(t[0], here)] else [])
      + Groups(t[1..], os, name, date)
  }

  function Flatten(gs: seq<Group>): seq<Joined> {
    if gs == [] then [] else Pairs(gs[0].statement, gs[0].opinions) + Flatten(gs[1..])
  }

  /** No group is empty, and neighbours are about different statements. */
  ghost predicate IsGrouping(gs: seq<Group>, rows: seq<Joined>) {
    && Flatten(gs) == rows
    && (forall k | 0 <= k < |gs| :: gs[k].opinions != [])
    && (forall k | 0 < k < |gs| :: gs[k - 1].statement.id != gs[k].statement.id)
  }

  lemma {:induction false} PairsSnoc(r: Row<StatementData>, os: Table<OpinionData>, o: Row<OpinionData>)
    ensures Pairs(r, os + [o]) == Pairs(r, os) + [Joined(r, o)]
  {
    if os == [] {
      assert os + [o] == [o];
    } else {
      PairsSnoc(r, os[1..], o);
      assert (os + [o])[1..] == os[1..] + [o];
    }
  }

  lemma {:induction false} FlattenSnoc(gs: seq<Group>, g: Group)
    ensures Flatten(gs + [g]) == Flatten(gs) + Pairs(g.statement, g.opinions)
  {
    if gs == [] {
      assert gs + [g] == [g];
      assert Flatten([g]) == Pairs(g.statement, g.opinions) + Flatten([]);
    } else {
      FlattenSnoc(gs[1..], g);
      assert (gs + [g])[1..] == gs[1..] + [g];
    }
  }

  lemma {:induction false} PairsShape(r: Row<StatementData>, os: Table<OpinionData>)
    ensures |Pairs(r, os)| == |os|
    ensures forall k | 0 <= k < |os| :: Pairs(r, os)[k] == Joined(r, os[k])
  {
    if os != [] { PairsShape(r, os[1..]); }
  }

  /** Two groupings of the same rows are the same grouping. */
  lemma {:induction false} GroupingIsUnique(gs: seq<Group>, hs: seq<Group>, rows: seq<Joined>)
    requires IsGrouping(gs, rows) && IsGrouping(hs, rows)
    ensures gs == hs
  {
    if gs != [] {
      PairsShape(gs[0].statement, gs[0].opinions);
    }
    if hs != [] {
      PairsShape(hs[0].statement, hs[0].opinions);
    }
    if gs != [] && hs != [] {
      var g, h := gs[0], hs[0];
      assert rows[0] == Joined(g.statement, g.opinions[0]) == Joined(h.statement, h.opinions[0]);
      GroupEnds(gs, rows);
      GroupEnds(hs, rows);
      assert |g.opinions| == |h.opinions|;
      assert forall k | 0 <= k < |g.opinions| :: rows[k].opinion == g.opinions[k] && rows[k].opinion == h.opinions[k];
      assert g.opinions == h.opinions;
      GroupingIsUnique(gs[1..], hs[1..], rows[|g.opinions|..]) by {
        assert Flatten(gs[1..]) == rows[|g.opinions|..] && Flatten(hs[1..]) == rows[|g.opinions|..];
      }
      assert gs == [g] + gs[1..] && hs == [h] + hs[1..];
    }
  }

  /** Where the first group ends, a row of another statement follows. */
  lemma GroupEnds(gs: seq<Group>, rows: seq<Joined>)
    requires IsGrouping(gs, rows) && gs != []
    ensures var n := |gs[0].opinions|;
            && n <= |rows| && (forall k | 0 <= k < n :: rows[k] == Joined(gs[0].statement, gs[0].opinions[k]))
            && (n < |rows| ==> rows[n].statement.id != gs[0].statement.id)
  {
    PairsShape(gs[0].statement, gs[0].opinions);
    if |gs| > 1 {
      PairsShape(gs[1].statement, gs[1].opinions);
      assert Flatten(gs[1..])[0] == Joined(gs[1].statement, gs[1].opinions[0]);
    }
  }

  lemma PrependGroup(g: Group, gs: seq<Group>, rows: seq<Joined>)
    requires IsGrouping(gs, rows) && g.opinions != []
    requires gs != [] ==> g.statement.id != gs[0].statement.id
    ensures IsGrouping([g] + gs, Pairs(g.statement, g.opinions) + rows)
  {
    assert ([g] + gs)[1..] == gs;
  }

  ghost predicate IdsIncrease(gs: seq<Group>) {
    forall j, k | 0 <= j < k < |gs| :: gs[j].statement.id < gs[k].statement.id
  }

  /** Each statement has one group, in row order. */
  lemma {:induction false} GroupsOfRows(t: Table<StatementData>, os: Table<OpinionData>, name: string, date: nat)
    requires Increasing(t)
    ensures forall g | g in Groups(t, os, name, date) :: g.statement in t && g.statement.data.contents.name == name
    ensures IdsIncrease(Groups(t, os, name, date))
  {
    hide OpinionsOn, IdsIncrease;
    if t == [] {
      NoGroups();
    } else {
      GroupsOfRows(t[1..], os, name, date);
      var here := OpinionsOn(os, t[0].id, date);
      var rest := Groups(t[1..], os, name, date);
      if t[0].data.contents.name == name && here != [] {
        LaterGroups(Group(t[0], here), rest);
      } else {
        assert [] + rest == rest;
      }
    }
  }

  lemma LaterGroups(g: Group, gs: seq<Group>)
    requires IdsIncrease(gs) && forall h | h in gs :: g.statement.id < h.statement.id
    ensures IdsIncrease([g] + gs)
  {
  }

  /** The groups, flattened, are the joined rows in order. */
  lemma {:induction false} GroupsAreGrouping(t: Table<StatementData>, os: Table<OpinionData>, name: string, date: nat)
    requires Increasing(t)
    ensures IsGrouping(Groups(t, os, name, date), JoinedRows(t, os, name, date))
  {
    hide OpinionsOn, IsGrouping;
    if t == [] {
      NoGroups();
    } else {
      GroupsAreGrouping(t[1..], os, name, date);
      var here := OpinionsOn(os, t[0].id, date);
      var rest := Groups(t[1..], os, name, date);
      if t[0].data.contents.name == name && here != [] {
        GroupsOfRows(t[1..], os, name, date);
        assert rest != [] ==> rest[0] in rest;
        PrependGroup(Group(t[0], here), rest, JoinedRows(t[1..], os, name, date));
      } else {
        assert [] + rest == rest;
        assert Pairs(t[0], []) == [];
        assert [] + JoinedRows(t[1..], os, name, date) == JoinedRows(t[1..], os, name, date);
      }
    }
  }

  lemma NoGroups()
    ensures IsGrouping([], []) && IdsIncrease([])
  {
  }

  /* ---- as messages ---- */

  /** A null comment column reads as empty text. */
  function UnsignedOf(s: Stored): UnsignedOpinion {
    UnsignedOpinion(s.date, s.valid, s.serial, s.certainty, "")
  }

  function OpinionWith(key: PublicKey, s: Stored): Opinion {
    Opinion(UnsignedOf(s), key, s.signature)
  }

  /** The opinion of a row, its signer looked up in the statement table. */
  function OpinionOf(t: Table<StatementData>, d: OpinionData): (r: Option<Opinion>)
    ensures IsSignerRow(t, d.signerId) ==> r.Some?
  {
    match ById(t, d.signerId)
    case None => None
    case Some(row) =>
      match ReadContents(row.contents)
      case None => None
      case Some(s) =>
        if s.entities != [] && s.entities[0].Signer? then Some(OpinionWith(s.entities[0].key, d.stored)) else None
  }

  function OpinionsOf(t: Table<StatementData>, os: Table<OpinionData>): Option<seq<Opinion>> {
    if os == [] then Some([])
    else
      match (OpinionOf(t, os[0].data), OpinionsOf(t, os[1..]))
      case (Some(o), Some(rest)) => Some([o] + rest)
      case _ => None
  }

  function SignedOf(t: Table<StatementData>, g: Group): Option<SignedStatement> {
    match (ReadContents(g.statement.data.contents), OpinionsOf(t, g.opinions))
    case (Some(s), Some(os)) => Some(SignedStatement(s, os))
    case _ => None
  }

  function AllSigned(t: Table<StatementData>, gs: seq<Group>): Option<seq<SignedStatement>> {
    if gs == [] then Some([])
    else
      match (SignedOf(t, gs[0]), AllSigned(t, gs[1..]))
      case (Some(s), Some(rest)) => Some([s] + rest)
      case _ => None
  }

  /** The reply to a request; `None` where reading a row back would panic. */
  function ListNamed(db: Db, name: string, date: nat): Option<seq<SignedStatement>> {
    AllSigned(db.statements, Groups(db.statements, db.opinions, name, date))
  }

  /* ---- what a reply carries ---- */

  /** In valid tables every row of the reply reads back. */
  lemma RowReads(r: Row<StatementData>, t: Table<StatementData>, ar: Arity)
    requires GoodArity(ar) && ValidStatements(t, ar) && r in t
    ensures ReadContents(r.data.contents).Some?
    ensures var s := ReadContents(r.data.contents).value;
            s.entities != [] && Acceptable(s, ar) && ContentsOf(s) == r.data.contents && |s.entities| == ar(s.name)
  {
    hide ReadContents, DataOf, Acceptable, Increasing;
    var s: Statement :| |s.entities| == ar(s.name) > 0 && Acceptable(s, ar) && r.data == DataOf(s);
    FaithfulReads(s, ar);
    ContentsOfData(s);
  }

  lemma OpinionReads(db: Db, o: Row<OpinionData>, ar: Arity)
    requires GoodArity(ar) && ValidTables(db, ar) && o in db.opinions
    ensures var d := o.data;
            && OpinionOf(db.statements, d) == Some(OpinionWith(KeyIn(db.statements, d).signer, d.stored))
            && AcceptableOpinion(OpinionWith(KeyIn(db.statements, d).signer, d.stored))
  {
    hide ReadContents, DataOf, Increasing, Printable;
    var t, d := db.statements, o.data;
    var r := Row(d.signerId, ById(t, d.signerId).value);
    assert r in t;
    RowReads(r, t, ar);
    var s := ReadContents(r.data.contents).value;
    assert s.entities[0] in s.entities;
    assert s.entities[0] == Signer(s.entities[0].key);
  }

  /** The entries the opinions of one group stand for. */
  function GroupEntries(c: Contents, t: Table<StatementData>, os: Table<OpinionData>): seq<Entry> {
    match OpinionsOf(t, os)
    case Some(r) => EntriesOfOpinions(c, r)
    case None => []
  }

  lemma {:induction false} GroupReads(db: Db, r: Row<StatementData>, os: Table<OpinionData>, ar: Arity)
    requires GoodArity(ar) && ValidTables(db, ar) && r in db.statements
    requires forall o | o in os :: o in db.opinions && o.data.statementId == r.id
    ensures OpinionsOf(db.statements, os).Some?
    ensures forall o | o in OpinionsOf(db.statements, os).value :: AcceptableOpinion(o)
    ensures var es := GroupEntries(r.data.contents, db.statements, os);
            && |es| == |os|
            && forall k | 0 <= k < |os| :: es[k] == Entry(KeyIn(db.statements, os[k].data), os[k].data.stored)
  {
    hide OpinionOf, SignerOf, Faithful, Increasing, AcceptableOpinion, ById;
    if os != [] {
      var o := os[0];
      OpinionReads(db, o, ar);
      UniqueIds(db.statements);
      assert ById(db.statements, r.id) == Some(r.data);
      GroupReads(db, r, os[1..], ar);
      KeyOfPair(db, o.data);
    }
  }

  lemma {:induction false} GroupsMembers(t: Table<StatementData>, os: Table<OpinionData>, name: string, date: nat)
    ensures forall g :: g in Groups(t, os, name, date) <==>
              g.statement in t && g.statement.data.contents.name == name
              && g.opinions == OpinionsOn(os, g.statement.id, date) && g.opinions != []
  {
    hide OpinionsOn;
    if t != [] {
      GroupsMembers(t[1..], os, name, date);
      assert forall r :: r in t <==> r == t[0] || r in t[1..];
    }
  }

  ghost predicate GroupOf(db: Db, g: Group) {
    g.statement in db.statements && forall o | o in g.opinions :: o in db.opinions && o.data.statementId == g.statement.id
  }

  ghost function FlatEntries(t: Table<StatementData>, gs: seq<Group>): seq<Entry> {
    if gs == [] then [] else GroupEntries(gs[0].statement.data.contents, t, gs[0].opinions) + FlatEntries(t, gs[1..])
  }

  predicate StandsFor(s: Statement, c: Contents) {
    s.entities != [] && ContentsOf(s) == c && ReadContents(c) == Some(s)
  }

  lemma GroupSigned(db: Db, g: Group, ar: Arity)
    requires GoodArity(ar) && ValidTables(db, ar) && GroupOf(db, g) && g.opinions != []
    ensures var s := SignedOf(db.statements, g);
            && s.Some? && AcceptableSigned(s.value, ar) && s.value.opinions != []
            && s.value.statement.name == g.statement.data.contents.name
            && StandsFor(s.value.statement, g.statement.data.contents)
            && EntriesOf(s.value) == GroupEntries(g.statement.data.contents, db.statements, g.opinions)
  {
    hide ReadContents, OpinionOf, SignerOf, Faithful, Increasing, AcceptableOpinion, Acceptable, ById, EntityText;
    RowReads(g.statement, db.statements, ar);
    GroupReads(db, g.statement, g.opinions, ar);
  }

  lemma {:induction false} GroupsSigned(db: Db, gs: seq<Group>, ar: Arity)
    requires GoodArity(ar) && ValidTables(db, ar)
    requires forall g | g in gs :: GroupOf(db, g) && g.opinions != []
    ensures var l := AllSigned(db.statements, gs);
            && l.Some? && |l.value| == |gs|
            && (forall k | 0 <= k < |gs| ::
                  && AcceptableSigned(l.value[k], ar) && l.value[k].opinions != []
                  && l.value[k].statement.name == gs[k].statement.data.contents.name
                  && StandsFor(l.value[k].statement, gs[k].statement.data.contents))
            && Entries(l.value) == FlatEntries(db.statements, gs)
  {
    hide SignedOf, GroupOf, ValidTables, AcceptableSigned, EntriesOf, GroupEntries, StandsFor;
    if gs != [] {
      GroupSigned(db, gs[0], ar);
      GroupsSigned(db, gs[1..], ar);
    }
  }

  lemma GroupMembers(db: Db, g: Group, ar: Arity)
    requires GoodArity(ar) && ValidTables(db, ar) && GroupOf(db, g)
    ensures forall e :: e in GroupEntries(g.statement.data.contents, db.statements, g.opinions) <==>
              exists o | o in g.opinions :: e == Entry(KeyIn(db.statements, o.data), o.data.stored)
  {
    hide ValidTables, GroupEntries, KeyIn;
    GroupReads(db, g.statement, g.opinions, ar);
    var es := GroupEntries(g.statement.data.contents, db.statements, g.opinions);
    forall e ensures e in es <==> exists o | o in g.opinions :: e == Entry(KeyIn(db.statements, o.data), o.data.stored) {
      if e in es { var k :| 0 <= k < |es| && es[k] == e; assert g.opinions[k] in g.opinions; }
    }
  }

  lemma {:induction false} FlatMembers(db: Db, gs: seq<Group>, ar: Arity)
    requires GoodArity(ar) && ValidTables(db, ar)
    requires forall g | g in gs :: GroupOf(db, g)
    ensures forall e :: e in FlatEntries(db.statements, gs) <==>
              exists g, o | g in gs && o in g.opinions :: e == Entry(KeyIn(db.statements, o.data), o.data.stored)
  {
    hide ValidTables, GroupEntries, KeyIn;
    if gs != [] {
      var g := gs[0];
      assert GroupOf(db, g);
      GroupMembers(db, g, ar);
      hide GroupOf;
      FlatMembers(db, gs[1..], ar);
      assert forall h :: h in gs <==> h == g || h in gs[1..];
    }
  }

  /** The entries of a view on one name and one date. */
  ghost predicate OnNameAndDate(v: Register, e: Entry, name: string, date: nat) {
    e.key in v && v[e.key] == e.stored && e.key.statement.name == name && e.stored.date == date
  }

  lemma RowOfEntry(db: Db, e: Entry, name: string, date: nat, ar: Arity) returns (g: Group, o: Row<OpinionData>)
    requires GoodArity(ar) && ValidTables(db, ar) && OnNameAndDate(View(db), e, name, date)
    ensures g in Groups(db.statements, db.opinions, name, date) && o in g.opinions
    ensures e == Entry(KeyIn(db.statements, o.data), o.data.stored)
  {
    hide MapOf, ValidStatements, ValidPrivateKeys, CacheConforms, SignerOf, Groups, ById, Increasing,
      DistinctKeys, KeyIn;
    var t := db.statements;
    KeysAreDistinct(db, ar);
    MapRepresents(db.opinions, Naming(t));
    o :| o in db.opinions && KeyIn(t, o.data) == e.key;
    KeyOfPair(db, o.data);
    g := GroupWith(db, o, name, date);
  }

  lemma GroupWith(db: Db, o: Row<OpinionData>, name: string, date: nat) returns (g: Group)
    requires o in db.opinions && o.data.stored.date == date
    requires ById(db.statements, o.data.statementId).Some? && ById(db.statements, o.data.statementId).value.contents.name == name
    ensures g in Groups(db.statements, db.opinions, name, date) && o in g.opinions
  {
    hide Groups, ById;
    var r := Row(o.data.statementId, ById(db.statements, o.data.statementId).value);
    g := Group(r, OpinionsOn(db.opinions, r.id, date));
    assert o in g.opinions;
    GroupsMembers(db.statements, db.opinions, name, date);
  }

  lemma EntryOfRow(db: Db, g: Group, o: Row<OpinionData>, name: string, date: nat, ar: Arity)
    requires GoodArity(ar) && ValidTables(db, ar)
    requires g in Groups(db.statements, db.opinions, name, date) && o in g.opinions
    ensures OnNameAndDate(View(db), Entry(KeyIn(db.statements, o.data), o.data.stored), name, date)
  {
    hide MapOf, ValidStatements, ValidPrivateKeys, CacheConforms, SignerOf, Groups, Increasing, DistinctKeys, KeyIn;
    KeysAreDistinct(db, ar);
    MapRepresents(db.opinions, Naming(db.statements));
    GroupsMembers(db.statements, db.opinions, name, date);
    UniqueRows(db, ar);
    KeyOfPair(db, o.data);
  }

  lemma RowsOnNameAndDate(db: Db, name: string, date: nat, ar: Arity)
    requires GoodArity(ar) && ValidTables(db, ar)
    ensures forall e :: OnNameAndDate(View(db), e, name, date) <==>
              exists g, o | g in Groups(db.statements, db.opinions, name, date) && o in g.opinions ::
                e == Entry(KeyIn(db.statements, o.data), o.data.stored)
  {
    hide View, ValidTables, KeyIn, OnNameAndDate, Groups;
    forall e | OnNameAndDate(View(db), e, name, date)
      ensures exists g, o | g in Groups(db.statements, db.opinions, name, date) && o in g.opinions ::
                e == Entry(KeyIn(db.statements, o.data), o.data.stored)
    {
      var g, o := RowOfEntry(db, e, name, date, ar);
    }
    forall g, o | g in Groups(db.statements, db.opinions, name, date) && o in g.opinions
      ensures OnNameAndDate(View(db), Entry(KeyIn(db.statements, o.data), o.data.stored), name, date)
    {
      EntryOfRow(db, g, o, name, date, ar);
    }
  }

  lemma UniqueRows(db: Db, ar: Arity)
    requires ValidTables(db, ar)
    ensures forall r | r in db.statements :: ById(db.statements, r.id) == Some(r.data)
  {
    UniqueIds(db.statements);
  }

  /** The statement survives a row. */
  predicate IsReadable(s: Statement) {
    s.entities != [] && ReadContents(ContentsOf(s)) == Some(s)
  }

  lemma RepliedOnce(t: Table<StatementData>, gs: seq<Group>, l: seq<SignedStatement>, ar: Arity)
    requires ValidStatements(t, ar) && |l| == |gs| && forall g | g in gs :: g.statement in t
    requires IdsIncrease(gs)
    requires forall k | 0 <= k < |gs| :: StandsFor(l[k].statement, gs[k].statement.data.contents)
    ensures forall j, k | 0 <= j < k < |l| :: l[j].statement != l[k].statement
    ensures forall s | s in l :: IsReadable(s.statement)
  {
    hide ContentsOf, ReadContents, Increasing, Faithful;
    forall j, k | 0 <= j < k < |l| ensures l[j].statement != l[k].statement {
      assert gs[j] in gs && gs[k] in gs;
    }
  }

  /** The reply to a request carries exactly the view's entries of the name and date, each
      statement once and none without opinions; nothing in it is refused by a valid store. */
  lemma ReplyCarries(db: Db, name: string, date: nat, ar: Arity)
    requires GoodArity(ar) && ValidTables(db, ar)
    ensures var reply := ListNamed(db, name, date);
            && reply.Some?
            && (forall s | s in reply.value ::
                  AcceptableSigned(s, ar) && s.opinions != [] && s.statement.name == name && IsReadable(s.statement))
            && (forall j, k | 0 <= j < k < |reply.value| :: reply.value[j].statement != reply.value[k].statement)
            && (forall e :: e in Entries(reply.value) <==> OnNameAndDate(View(db), e, name, date))
  {
    hide View, ValidOpinions, ValidPrivateKeys, CacheConforms, AcceptableSigned, OnNameAndDate, KeyIn, Entries,
      Groups, AllSigned, FlatEntries, StandsFor, IsReadable, Faithful, Increasing;
    var gs := Groups(db.statements, db.opinions, name, date);
    GroupsMembers(db.statements, db.opinions, name, date);
    GroupsOfRows(db.statements, db.opinions, name, date);
    GroupsSigned(db, gs, ar);
    RepliedOnce(db.statements, gs, AllSigned(db.statements, gs).value, ar);
    FlatMembers(db, gs, ar);
    RowsOnNameAndDate(db, name, date, ar);
  }
}
