/** What a summary says about a store: it depends on the signatures of a name and date and
    on nothing else, and it counts what a reply would carry. */
module SummaryMeaning {
  import opened Options
  import opened Order
  import opened Tables
  import opened Opinions
  import opened Store
  import opened StoreInvariants
  import opened Registers
  import opened Views
  import opened Merging
  import opened Listing
  import opened Summaries

  /** Distinct opinions have distinct signatures. */
  ghost predicate UniquelySigned(all: iset<Entry>) {
    forall a, b | a in all && b in all && a.stored.signature == b.stored.signature :: a == b
  }

  /** The keys a view holds on a name and a date. */
  function KeysOn(v: Register, name: string, date: nat): set<Key> {
    set k | k in v && k.statement.name == name && v[k].date == date
  }

  function SignaturesOn(v: Register, name: string, date: nat): set<string> {
    set k | k in KeysOn(v, name, date) :: v[k].signature
  }

  function Elements<T>(s: seq<T>): set<T> {
    set x | x in s
  }

  ghost predicate NoRepeats<T>(s: seq<T>) {
    s != [] ==> s[0] !in s[1..] && NoRepeats(s[1..])
  }

  lemma {:induction false} NoRepeatsSize<T>(s: seq<T>)
    requires NoRepeats(s)
    ensures |Elements(s)| == |s|
  {
    if s != [] {
      NoRepeatsSize(s[1..]);
      assert Elements(s) == {s[0]} + Elements(s[1..]);
    }
  }

  /* ---- signatures of a name, as a list ---- */

  ghost predicate SortedTexts(s: seq<string>) {
    s != [] ==> (forall x | x in s[1..] :: LessEq(s[0], x)) && SortedTexts(s[1..])
  }

  /** Sorted lists without repeats are determined by their elements. */
  lemma {:induction false} SortedListIsUnique(s: seq<string>, t: seq<string>)
    requires SortedTexts(s) && SortedTexts(t) && NoRepeats(s) && NoRepeats(t)
    requires Elements(s) == Elements(t)
    ensures s == t
  {
    hide LessEq;
    assert s != [] ==> s[0] in Elements(s);
    assert t != [] ==> t[0] in Elements(t);
    if s != [] {
      assert s[0] in t && t[0] in s;
      Total(s[0], t[0]);
      assert s[0] == t[0];
      assert Elements(s[1..]) == Elements(s) - {s[0]};
      assert Elements(t[1..]) == Elements(t) - {t[0]};
      SortedListIsUnique(s[1..], t[1..]);
      assert s == [s[0]] + s[1..] && t == [t[0]] + t[1..];
    }
  }

  lemma {:induction false} SignatureMembers(rows: seq<SyncRow>, name: string)
    ensures forall x :: x in SignaturesOf(rows, name) <==> SyncRow(name, x) in rows
  {
    if rows != [] {
      SignatureMembers(rows[1..], name);
      assert forall r :: r in rows <==> r == rows[0] || r in rows[1..];
    }
  }

  lemma {:induction false} SignaturesSorted(rows: seq<SyncRow>, name: string)
    requires InOrder(rows)
    ensures SortedTexts(SignaturesOf(rows, name))
  {
    hide LessEq;
    if rows != [] {
      SignaturesSorted(rows[1..], name);
      SignatureMembers(rows[1..], name);
      if rows[0].name == name {
        var s := SignaturesOf(rows, name);
        assert s[1..] == SignaturesOf(rows[1..], name);
        forall x | x in s[1..] ensures LessEq(s[0], x) {
          assert RowLessEq(rows[0], SyncRow(name, x));
        }
      }
    }
  }

  lemma {:induction false} SignaturesNoRepeats(rows: seq<SyncRow>, name: string)
    requires NoRepeats(rows)
    ensures NoRepeats(SignaturesOf(rows, name))
  {
    if rows != [] {
      SignaturesNoRepeats(rows[1..], name);
      SignatureMembers(rows[1..], name);
      if rows[0].name == name {
        assert SignaturesOf(rows, name)[1..] == SignaturesOf(rows[1..], name);
      }
    }
  }

  lemma {:induction false} InsertNoRepeats(x: SyncRow, rows: seq<SyncRow>)
    requires NoRepeats(rows) && x !in rows
    ensures NoRepeats(InsertSorted(x, rows))
    ensures forall r :: r in InsertSorted(x, rows) <==> r == x || r in rows
  {
    hide RowLessEq;
    if rows == [] || RowLessEq(x, rows[0]) {
      assert ([x] + rows)[1..] == rows;
    } else {
      InsertNoRepeats(x, rows[1..]);
      assert InsertSorted(x, rows)[1..] == InsertSorted(x, rows[1..]);
    }
  }

  lemma {:induction false} SortedNoRepeats(rows: seq<SyncRow>)
    requires NoRepeats(rows)
    ensures NoRepeats(Sorted(rows))
  {
    if rows != [] {
      SortedNoRepeats(rows[1..]);
      SortedInOrder(rows[1..]);
      InsertNoRepeats(rows[0], Sorted(rows[1..]));
    }
  }

  /* ---- the rows of the query ---- */

  lemma {:induction false} SyncRowMembers(t: Table<StatementData>, os: Table<OpinionData>, date: nat)
    ensures forall r :: r in SyncRows(t, os, date) <==>
              exists o | o in os :: ById(t, o.data.statementId).Some? && o.data.stored.date == date
                && r == SyncRow(ById(t, o.data.statementId).value.contents.name, o.data.stored.signature)
  {
    hide ById;
    if os != [] {
      SyncRowMembers(t, os[1..], date);
      assert forall o :: o in os <==> o == os[0] || o in os[1..];
    }
  }

  ghost predicate DistinctSignatures(os: Table<OpinionData>) {
    forall o, p | o in os && p in os && o.data.stored.signature == p.data.stored.signature :: o == p
  }

  lemma {:induction false} SyncRowsNoRepeats(t: Table<StatementData>, os: Table<OpinionData>, date: nat)
    requires Increasing(os) && DistinctSignatures(os)
    ensures NoRepeats(SyncRows(t, os, date))
  {
    hide ById;
    if os != [] {
      SyncRowsNoRepeats(t, os[1..], date);
      SyncRowMembers(t, os[1..], date);
      var d := os[0].data;
      if ById(t, d.statementId).Some? && d.stored.date == date {
        var r := SyncRow(ById(t, d.statementId).value.contents.name, d.stored.signature);
        assert forall o | o in os[1..] :: o != os[0] && o.data.stored.signature != d.stored.signature;
        assert SyncRows(t, os, date)[1..] == SyncRows(t, os[1..], date);
        assert r !in SyncRows(t, os[1..], date);
      }
    }
  }

  /* ---- meaning ---- */

  ghost predicate DistinctIn(v: Register) {
    forall k, l | k in v && l in v && v[k].signature == v[l].signature :: k == l
  }

  lemma SignedIsDistinct(v: Register, all: iset<Entry>)
    requires UniquelySigned(all) && Within(v, all)
    ensures DistinctIn(v)
  {
    forall k, l | k in v && l in v && v[k].signature == v[l].signature ensures k == l {
      assert Entry(k, v[k]) in all && Entry(l, v[l]) in all;
    }
  }

  lemma RowsDistinct(db: Db, ar: Arity)
    requires GoodArity(ar) && ValidTables(db, ar) && DistinctIn(View(db))
    ensures DistinctSignatures(db.opinions)
  {
    hide MapOf, ValidStatements, ValidOpinions, ValidPrivateKeys, CacheConforms, KeyIn;
    KeysAreDistinct(db, ar);
    MapRepresents(db.opinions, Naming(db.statements));
  }

  /** A row's signature is in the view under the row's name and date. */
  lemma RowIsHeld(db: Db, o: Row<OpinionData>, name: string, date: nat, ar: Arity)
    requires GoodArity(ar) && ValidTables(db, ar) && o in db.opinions
    requires ById(db.statements, o.data.statementId).Some? && o.data.stored.date == date
    requires ById(db.statements, o.data.statementId).value.contents.name == name
    ensures o.data.stored.signature in SignaturesOn(View(db), name, date)
  {
    hide MapOf, ValidStatements, ValidPrivateKeys, CacheConforms, SignerOf, ById, Increasing, DistinctKeys, KeyIn;
    KeysAreDistinct(db, ar);
    MapRepresents(db.opinions, Naming(db.statements));
    KeyOfPair(db, o.data);
    assert KeyIn(db.statements, o.data) in KeysOn(View(db), name, date);
  }

  lemma HeldHasRow(db: Db, x: string, name: string, date: nat, ar: Arity) returns (o: Row<OpinionData>)
    requires GoodArity(ar) && ValidTables(db, ar) && x in SignaturesOn(View(db), name, date)
    ensures o in db.opinions && ById(db.statements, o.data.statementId).Some? && o.data.stored.date == date
    ensures SyncRow(name, x) == SyncRow(ById(db.statements, o.data.statementId).value.contents.name, o.data.stored.signature)
  {
    hide MapOf, ValidStatements, ValidPrivateKeys, CacheConforms, SignerOf, ById, Increasing, DistinctKeys, KeyIn;
    KeysAreDistinct(db, ar);
    MapRepresents(db.opinions, Naming(db.statements));
    var k :| k in KeysOn(View(db), name, date) && View(db)[k].signature == x;
    o :| o in db.opinions && KeyIn(db.statements, o.data) == k;
    KeyOfPair(db, o.data);
  }

  /** The rows under a name carry the signatures the view holds on it. */
  lemma RowsAreSignatures(db: Db, name: string, date: nat, ar: Arity)
    requires GoodArity(ar) && ValidTables(db, ar)
    ensures Elements(SignaturesOf(SyncRows(db.statements, db.opinions, date), name)) == SignaturesOn(View(db), name, date)
  {
    hide View, ValidTables, ById, SyncRows, SignaturesOn;
    var rows := SyncRows(db.statements, db.opinions, date);
    SyncRowMembers(db.statements, db.opinions, date);
    SignatureMembers(rows, name);
    forall x ensures SyncRow(name, x) in rows <==> x in SignaturesOn(View(db), name, date) {
      if SyncRow(name, x) in rows {
        var o :| o in db.opinions && ById(db.statements, o.data.statementId).Some? && o.data.stored.date == date
                 && SyncRow(name, x) == SyncRow(ById(db.statements, o.data.statementId).value.contents.name, o.data.stored.signature);
        RowIsHeld(db, o, name, date, ar);
      }
      if x in SignaturesOn(View(db), name, date) {
        var o := HeldHasRow(db, x, name, date, ar);
      }
    }
  }

  /** A summary lists a name exactly when there are opinions on it; then its count is their
      number and its hash that of their signatures in order, whatever the rows' ids. */
  lemma InfoMeans(db: Db, name: string, date: nat, ar: Arity) returns (signatures: seq<string>)
    requires GoodArity(ar) && ValidTables(db, ar) && DistinctIn(View(db))
    ensures SortedTexts(signatures) && NoRepeats(signatures)
    ensures Elements(signatures) == SignaturesOn(View(db), name, date)
    ensures |signatures| == |SignaturesOn(View(db), name, date)|
    ensures var infos := GetSyncInfos(db, date).infos;
            && (name in infos <==> SignaturesOn(View(db), name, date) != {})
            && (name in infos ==> infos[name] == InfoOf(signatures))
  {
    hide View, ValidStatements, ValidPrivateKeys, CacheConforms, SignerOf, ById, SyncRows, Sorted, LessEq,
      SignaturesOn, NoRepeats, SortedTexts, InOrder;
    var rows := SyncRows(db.statements, db.opinions, date);
    RowsDistinct(db, ar);
    SyncRowsNoRepeats(db.statements, db.opinions, date);
    SortedNoRepeats(rows);
    SortedInOrder(rows);
    signatures := SignaturesOf(Sorted(rows), name);
    SignaturesSorted(Sorted(rows), name);
    SignaturesNoRepeats(Sorted(rows), name);
    NoRepeatsSize(signatures);
    RowsAreSignatures(db, name, date, ar);
    SignatureMembers(rows, name);
    SignatureMembers(Sorted(rows), name);
    assert Elements(signatures) == Elements(SignaturesOf(rows, name));
    if signatures != [] { assert signatures[0] in Elements(signatures); }
    forall r | r in Sorted(rows) && r.name == name ensures r.signature in signatures {
      assert r == SyncRow(name, r.signature);
    }
  }

  /* ---- the count and the reply ---- */

  function TotalOpinions(list: seq<SignedStatement>): nat {
    if list == [] then 0 else |list[0].opinions| + TotalOpinions(list[1..])
  }

  function OpinionsIn(gs: seq<Group>): Table<OpinionData> {
    if gs == [] then [] else gs[0].opinions + OpinionsIn(gs[1..])
  }

  predicate Counted(t: Table<StatementData>, name: string, date: nat, o: Row<OpinionData>) {
    var row := ById(t, o.data.statementId);
    row.Some? && row.value.contents.name == name && o.data.stored.date == date
  }

  function CountedRows(t: Table<StatementData>, os: Table<OpinionData>, name: string, date: nat): Table<OpinionData> {
    Keep(os, (o: Row<OpinionData>) => Counted(t, name, date, o))
  }

  lemma {:induction false} InsertCount(x: SyncRow, rows: seq<SyncRow>, name: string)
    ensures |SignaturesOf(InsertSorted(x, rows), name)| == |SignaturesOf(rows, name)| + if x.name == name then 1 else 0
  {
    hide RowLessEq;
    if rows == [] || RowLessEq(x, rows[0]) {
      assert ([x] + rows)[1..] == rows;
    } else {
      InsertCount(x, rows[1..], name);
      assert InsertSorted(x, rows)[1..] == InsertSorted(x, rows[1..]);
    }
  }

  lemma {:induction false} SortedCount(rows: seq<SyncRow>, name: string)
    ensures |SignaturesOf(Sorted(rows), name)| == |SignaturesOf(rows, name)|
  {
    if rows != [] {
      SortedCount(rows[1..], name);
      InsertCount(rows[0], Sorted(rows[1..]), name);
    }
  }

  lemma {:induction false} QueryCount(t: Table<StatementData>, os: Table<OpinionData>, name: string, date: nat)
    ensures |SignaturesOf(SyncRows(t, os, date), name)| == |CountedRows(t, os, name, date)|
  {
    hide ById;
    if os != [] {
      QueryCount(t, os[1..], name, date);
      var rest := SyncRows(t, os[1..], date);
      var d := os[0].data;
      if ById(t, d.statementId).Some? && d.stored.date == date {
        var r := SyncRow(ById(t, d.statementId).value.contents.name, d.stored.signature);
        assert ([r] + rest)[1..] == rest;
      }
    }
  }

  lemma {:induction false} IncreasingNoRepeats<T>(t: Table<T>)
    requires Increasing(t)
    ensures NoRepeats(t)
  {
    if t != [] { IncreasingNoRepeats(t[1..]); }
  }

  lemma {:induction false} NoRepeatsAppend<T>(s: seq<T>, t: seq<T>)
    requires NoRepeats(s) && NoRepeats(t) && forall x | x in s :: x !in t
    ensures NoRepeats(s + t)
  {
    if s == [] {
      assert s + t == t;
    } else {
      NoRepeatsAppend(s[1..], t);
      assert (s + t)[1..] == s[1..] + t;
    }
  }

  lemma {:induction false} GroupedNoRepeats(t: Table<StatementData>, os: Table<OpinionData>, name: string, date: nat)
    requires Increasing(t) && Increasing(os)
    ensures NoRepeats(OpinionsIn(Groups(t, os, name, date)))
    ensures forall o :: o in OpinionsIn(Groups(t, os, name, date)) <==>
              o in os && o.data.stored.date == date && exists r | r in t :: r.id == o.data.statementId && r.data.contents.name == name
  {
    if t != [] {
      GroupedNoRepeats(t[1..], os, name, date);
      var here := OpinionsOn(os, t[0].id, date);
      var rest := Groups(t[1..], os, name, date);
      assert forall r :: r in t <==> r == t[0] || r in t[1..];
      if t[0].data.contents.name == name && here != [] {
        KeepIncreases(os, (o: Row<OpinionData>) => o.data.statementId == t[0].id && o.data.stored.date == date);
        IncreasingNoRepeats(here);
        NoRepeatsAppend(here, OpinionsIn(rest));
        assert ([Group(t[0], here)] + rest)[1..] == rest;
      } else {
        assert [] + rest == rest;
        assert here == [] ==> forall o | o in os :: !(o.data.statementId == t[0].id && o.data.stored.date == date) || o in here;
      }
    }
  }

  lemma {:induction false} SignedCount(t: Table<StatementData>, gs: seq<Group>)
    requires AllSigned(t, gs).Some?
    ensures TotalOpinions(AllSigned(t, gs).value) == |OpinionsIn(gs)|
  {
    hide ReadContents, OpinionOf;
    if gs != [] {
      SignedCount(t, gs[1..]);
      OpinionsOfLength(t, gs[0].opinions);
      var l := AllSigned(t, gs).value;
      assert l[1..] == AllSigned(t, gs[1..]).value;
    }
  }

  lemma {:induction false} OpinionsOfLength(t: Table<StatementData>, os: Table<OpinionData>)
    ensures OpinionsOf(t, os).Some? ==> |OpinionsOf(t, os).value| == |os|
  {
    hide OpinionOf;
    if os != [] { OpinionsOfLength(t, os[1..]); }
  }

  /** For every name and date, the announced count is the number of opinions the reply to a
      request would carry; a name that is not announced has none. */
  lemma CountIsTransfer(db: Db, name: string, date: nat, ar: Arity)
    requires GoodArity(ar) && ValidTables(db, ar)
    ensures ListNamed(db, name, date).Some?
    ensures var infos := GetSyncInfos(db, date).infos;
            TotalOpinions(ListNamed(db, name, date).value) == if name in infos then infos[name].count else 0
  {
    hide View, SignerOf, ById, SyncRows, Sorted, LessEq, NoRepeats, Groups, AllSigned, Faithful, SignaturesOf,
      AcceptableSigned, Entries;
    var t, os := db.statements, db.opinions;
    ReplyCarries(db, name, date, ar);
    var gs := Groups(t, os, name, date);
    SignedCount(t, gs);
    GroupedNoRepeats(t, os, name, date);
    KeepIncreases(os, (o: Row<OpinionData>) => Counted(t, name, date, o));
    IncreasingNoRepeats(CountedRows(t, os, name, date));
    UniqueRows(db, ar);
    assert Elements(OpinionsIn(gs)) == Elements(CountedRows(t, os, name, date)) by { SameRows(db, name, date, ar); }
    NoRepeatsSize(OpinionsIn(gs));
    NoRepeatsSize(CountedRows(t, os, name, date));
    var rows := SyncRows(t, os, date);
    QueryCount(t, os, name, date);
    SortedCount(rows, name);
    NameListed(Sorted(rows), name);
  }

  lemma SameRows(db: Db, name: string, date: nat, ar: Arity)
    requires GoodArity(ar) && ValidTables(db, ar)
    ensures forall o :: o in OpinionsIn(Groups(db.statements, db.opinions, name, date)) <==> o in CountedRows(db.statements, db.opinions, name, date)
  {
    hide SignerOf, Groups, Faithful, OpinionsIn;
    GroupedNoRepeats(db.statements, db.opinions, name, date);
    UniqueRows(db, ar);
  }

  lemma NameListed(rows: seq<SyncRow>, name: string)
    ensures name in InfosOf(rows) <==> SignaturesOf(rows, name) != []
    ensures name in InfosOf(rows) ==> InfosOf(rows)[name].count == |SignaturesOf(rows, name)|
  {
    hide SignaturesOf;
    SignatureMembers(rows, name);
    if name in InfosOf(rows) {
      var r :| r in rows && r.name == name;
      assert r == SyncRow(name, r.signature);
    }
    if SignaturesOf(rows, name) != [] {
      assert SignaturesOf(rows, name)[0] in SignaturesOf(rows, name);
    }
  }
}
