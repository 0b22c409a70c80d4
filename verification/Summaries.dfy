/** The per-date summaries nodes announce: for each name a count of opinions and a hash of
    their signatures. */
module Summaries {
  import opened Order
  import opened Tables
  import opened Store

  /** SHA-256 idealized: the digest of different signature lists is different. */
  datatype Digest = Digest(fed: seq<string>)

  datatype SyncInfo = SyncInfo(count: nat, hash: Digest)

  datatype SyncInfos = SyncInfos(date: nat, infos: map<string, SyncInfo>)

  function InfoOf(signatures: seq<string>): SyncInfo {
    SyncInfo(|signatures|, Digest(signatures))
  }

  /** The hasher is fed one signature after the other. */
  method NewSyncInfo(data: seq<string>) returns (info: SyncInfo)
    ensures info == InfoOf(data)
  {
    var count := |data|;
    var hasher := [];
    for k := 0 to |data|
      invariant hasher == data[..k]
    {
      hasher := hasher + [data[k]];
    }
    assert data[..|data|] == data;
    info := SyncInfo(count, Digest(hasher));
  }

  /** Does the info in `other` suggest that we should update our data? */
  predicate SuggestsUpdate(own: SyncInfo, other: SyncInfo) {
    own.count < other.count || (own.count == other.count && own.hash != other.hash)
  }

  /* ---- the query ---- */

  datatype SyncRow = SyncRow(name: string, signature: string)

  /** Name and signature of every opinion of the date on a stored statement. */
  function SyncRows(t: Table<StatementData>, os: Table<OpinionData>, date: nat): seq<SyncRow> {
    if os == [] then []
    else
      var d := os[0].data;
      var rest := SyncRows(t, os[1..], date);
      match ById(t, d.statementId)
      case Some(row) =>
        if d.stored.date == date then [SyncRow(row.contents.name, d.stored.signature)] + rest else rest
      case None => rest
  }

  predicate RowLessEq(a: SyncRow, b: SyncRow) {
    if a.name == b.name then LessEq(a.signature, b.signature) else LessEq(a.name, b.name)
  }

  function InsertSorted(x: SyncRow, rows: seq<SyncRow>): seq<SyncRow> {
    if rows == [] || RowLessEq(x, rows[0]) then [x] + rows else [rows[0]] + InsertSorted(x, rows[1..])
  }

  /** `order by s.name, o.signature`. */
  function Sorted(rows: seq<SyncRow>): seq<SyncRow> {
    if rows == [] then [] else InsertSorted(rows[0], Sorted(rows[1..]))
  }

  ghost predicate InOrder(rows: seq<SyncRow>) {
    rows != [] ==> (forall r | r in rows[1..] :: RowLessEq(rows[0], r)) && InOrder(rows[1..])
  }

  lemma RowOrder(a: SyncRow, b: SyncRow, c: SyncRow)
    ensures RowLessEq(a, b) || RowLessEq(b, a)
    ensures RowLessEq(a, b) && RowLessEq(b, a) ==> a == b
    ensures RowLessEq(a, b) && RowLessEq(b, c) ==> RowLessEq(a, c)
  {
    hide LessEq;
    Total(a.name, b.name);
    Total(b.name, c.name);
    Total(a.signature, b.signature);
    if LessEq(a.name, b.name) && LessEq(b.name, c.name) { Transitive(a.name, b.name, c.name); }
    if LessEq(a.signature, b.signature) && LessEq(b.signature, c.signature) {
      Transitive(a.signature, b.signature, c.signature);
    }
  }

  lemma {:induction false} InsertInOrder(x: SyncRow, rows: seq<SyncRow>)
    requires InOrder(rows)
    ensures InOrder(InsertSorted(x, rows))
    ensures forall r :: r in InsertSorted(x, rows) <==> r == x || r in rows
  {
    hide RowLessEq;
    if rows != [] {
      RowOrder(x, rows[0], rows[0]);
      assert forall r :: r in rows <==> r == rows[0] || r in rows[1..];
      if RowLessEq(x, rows[0]) {
        forall r | r in rows ensures RowLessEq(x, r) {
          RowOrder(x, rows[0], r);
        }
        assert ([x] + rows)[1..] == rows;
      } else {
        InsertInOrder(x, rows[1..]);
        assert InsertSorted(x, rows)[1..] == InsertSorted(x, rows[1..]);
      }
    }
  }

  lemma {:induction false} SortedInOrder(rows: seq<SyncRow>)
    ensures InOrder(Sorted(rows))
    ensures forall r :: r in Sorted(rows) <==> r in rows
  {
    if rows != [] {
      SortedInOrder(rows[1..]);
      InsertInOrder(rows[0], Sorted(rows[1..]));
    }
  }

  /** The signatures under one name, in the order of the rows. */
  function SignaturesOf(rows: seq<SyncRow>, name: string): seq<string> {
    if rows == [] then []
    else if rows[0].name == name then [rows[0].signature] + SignaturesOf(rows[1..], name)
    else SignaturesOf(rows[1..], name)
  }

  function InfosOf(rows: seq<SyncRow>): map<string, SyncInfo> {
    map r | r in rows :: r.name := InfoOf(SignaturesOf(rows, r.name))
  }

  function GetSyncInfos(db: Db, date: nat): SyncInfos {
    SyncInfos(date, InfosOf(Sorted(SyncRows(db.statements, db.opinions, date))))
  }

  /** Grouping neighbours of equal name: in sorted rows this finds each name once, with all
      its signatures. */
  method GroupConsecutive(rows: seq<SyncRow>) returns (infos: map<string, SyncInfo>)
    requires InOrder(rows)
    ensures infos == InfosOf(rows)
  {
    infos := map[];
    var k := 0;
    while k < |rows|
      invariant 0 <= k <= |rows|
      invariant forall n :: n in infos <==> exists j :: 0 <= j < k && rows[j].name == n
      invariant forall n | n in infos :: infos[n] == InfoOf(SignaturesOf(rows, n))
      invariant forall j, l | 0 <= j < k <= l < |rows| :: rows[j].name != rows[l].name
    {
      var name := rows[k].name;
      var signatures := [];
      var start := k;
      while k < |rows| && rows[k].name == name
        invariant start <= k <= |rows|
        invariant forall j | start <= j < k :: rows[j].name == name
        invariant signatures == SignaturesOf(rows[start..k], name)
      {
        SignaturesSnoc(rows[start..k], rows[k], name);
        assert rows[start..k + 1] == rows[start..k] + [rows[k]];
        signatures := signatures + [rows[k].signature];
        k := k + 1;
      }
      NameIsContiguous(rows, start, k, name);
      var info := NewSyncInfo(signatures);
      infos := infos[name := info];
    }
    NamesCollected(rows, infos);
  }

  lemma NamesOfRows(rows: seq<SyncRow>, names: set<string>)
    requires forall n :: n in names <==> exists j :: 0 <= j < |rows| && rows[j].name == n
    ensures names == InfosOf(rows).Keys
  {
    hide SignaturesOf, InfoOf;
    assert forall r | r in rows :: exists j :: 0 <= j < |rows| && rows[j] == r;
    forall n | n in names ensures n in InfosOf(rows) {
      var j :| 0 <= j < |rows| && rows[j].name == n;
      assert rows[j] in rows;
    }
  }

  lemma NamesCollected(rows: seq<SyncRow>, infos: map<string, SyncInfo>)
    requires forall n :: n in infos <==> exists j :: 0 <= j < |rows| && rows[j].name == n
    requires forall n | n in infos :: infos[n] == InfoOf(SignaturesOf(rows, n))
    ensures infos == InfosOf(rows)
  {
    hide SignaturesOf, InfoOf;
    NamesOfRows(rows, infos.Keys);
  }

  lemma {:induction false} SignaturesSnoc(rows: seq<SyncRow>, r: SyncRow, name: string)
    ensures SignaturesOf(rows + [r], name) == SignaturesOf(rows, name) + (if r.name == name then [r.signature] else [])
  {
    if rows == [] {
      assert rows + [r] == [r];
      assert SignaturesOf([], name) == [];
    } else {
      SignaturesSnoc(rows[1..], r, name);
      assert (rows + [r])[1..] == rows[1..] + [r];
    }
  }

  lemma {:induction false} OrderedAt(rows: seq<SyncRow>, j: nat, k: nat)
    requires InOrder(rows) && j < k < |rows|
    ensures RowLessEq(rows[j], rows[k])
  {
    if j == 0 {
      assert rows[k] == rows[1..][k - 1];
    } else {
      OrderedAt(rows[1..], j - 1, k - 1);
    }
  }

  lemma {:induction false} NoneNamed(rows: seq<SyncRow>, name: string)
    requires forall r | r in rows :: r.name != name
    ensures SignaturesOf(rows, name) == []
  {
    if rows != [] { NoneNamed(rows[1..], name); }
  }

  lemma {:induction false} SignaturesSplit(rows: seq<SyncRow>, more: seq<SyncRow>, name: string)
    ensures SignaturesOf(rows + more, name) == SignaturesOf(rows, name) + SignaturesOf(more, name)
  {
    if rows == [] {
      assert rows + more == more;
    } else {
      SignaturesSplit(rows[1..], more, name);
      assert (rows + more)[1..] == rows[1..] + more;
    }
  }

  /** In sorted rows a run of one name that another name ends is all there is of it. */
  lemma NameIsContiguous(rows: seq<SyncRow>, start: nat, end: nat, name: string)
    requires InOrder(rows) && start < end <= |rows|
    requires forall j | start <= j < end :: rows[j].name == name
    requires forall j | 0 <= j < start :: rows[j].name != name
    requires end < |rows| ==> rows[end].name != name
    ensures forall l | end <= l < |rows| :: rows[l].name != name
    ensures SignaturesOf(rows, name) == SignaturesOf(rows[start..end], name)
  {
    hide LessEq;
    forall l | end <= l < |rows| ensures rows[l].name != name {
      OrderedAt(rows, start, end);
      Total(name, rows[end].name);
      if l > end { OrderedAt(rows, end, l); }
    }
    NoneNamed(rows[..start], name);
    NoneNamed(rows[end..], name);
    assert rows == rows[..start] + (rows[start..end] + rows[end..]);
    SignaturesSplit(rows[..start], rows[start..end] + rows[end..], name);
    SignaturesSplit(rows[start..end], rows[end..], name);
  }

  lemma DatedInfos(db: Db, date: nat)
    ensures GetSyncInfos(db, date).date == date
  {
  }
}
