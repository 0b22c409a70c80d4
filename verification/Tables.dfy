/** A database table with an integer primary key: its rows in key order. A new row gets
    one more than the largest key in use, so the key of a deleted last row is used again. */
module Tables {
  import opened Options

  /** The `Persistent` of the repository: a value with its key. */
  datatype Row<T> = Row(id: nat, data: T)

  type Table<T> = seq<Row<T>>

  /** Keys start at 1 and grow along the table. */
  ghost predicate Increasing<T>(t: Table<T>) {
    t != [] ==> t[0].id >= 1 && (forall r | r in t[1..] :: t[0].id < r.id) && Increasing(t[1..])
  }

  function ById<T>(t: Table<T>, id: nat): (d: Option<T>)
    ensures d.Some? ==> Row(id, d.value) in t
    ensures d.None? ==> forall r | r in t :: r.id != id
  {
    if t == [] then None
    else if t[0].id == id then Some(t[0].data)
    else ById(t[1..], id)
  }

  function MaxId<T>(t: Table<T>): (m: nat)
    ensures forall r | r in t :: r.id <= m
    ensures m == 0 || exists r | r in t :: r.id == m
  {
    if t == [] then 0
    else
      var m := MaxId(t[1..]);
      if t[0].id <= m then m else t[0].id
  }

  function NextId<T>(t: Table<T>): (n: nat)
    ensures forall r | r in t :: r.id < n
    ensures n == 1 || exists r | r in t :: r.id == n - 1
  {
    MaxId(t) + 1
  }

  function Insert<T>(t: Table<T>, d: T): Table<T> {
    t + [Row(NextId(t), d)]
  }

  /** The first row that satisfies `p`, as `fetch_optional` returns it. */
  function Fetch<T>(t: Table<T>, p: T -> bool): (r: Option<Row<T>>)
    ensures r.Some? ==> r.value in t && p(r.value.data)
    ensures r.None? ==> forall r | r in t :: !p(r.data)
  {
    if t == [] then None
    else if p(t[0].data) then Some(t[0])
    else Fetch(t[1..], p)
  }

  /** The rows that satisfy `p`, in key order. */
  function Keep<T>(t: Table<T>, p: Row<T> -> bool): (k: Table<T>)
    ensures forall r | r in k :: r in t && p(r)
    ensures forall r | r in t && p(r) :: r in k
  {
    if t == [] then []
    else if p(t[0]) then [t[0]] + Keep(t[1..], p)
    else Keep(t[1..], p)
  }

  lemma {:induction false} UniqueIds<T>(t: Table<T>)
    requires Increasing(t)
    ensures forall r, s | r in t && s in t && r.id == s.id :: r == s
    ensures forall r | r in t :: r.id >= 1
    ensures forall r | r in t :: ById(t, r.id) == Some(r.data)
  {
    if t != [] {
      UniqueIds(t[1..]);
      assert forall r | r in t :: r == t[0] || r in t[1..];
    }
  }

  lemma {:induction false} AppendIncreases<T>(t: Table<T>, r: Row<T>)
    requires Increasing(t) && r.id >= 1
    requires forall s | s in t :: s.id < r.id
    ensures Increasing(t + [r])
  {
    if t == [] {
      assert (t + [r])[1..] == [];
    } else {
      AppendIncreases(t[1..], r);
      assert (t + [r])[1..] == t[1..] + [r];
    }
  }

  /** Inserting keeps the order and every existing row under its key. */
  lemma InsertKeeps<T>(t: Table<T>, d: T)
    requires Increasing(t)
    ensures Increasing(Insert(t, d))
    ensures ById(Insert(t, d), NextId(t)) == Some(d)
    ensures forall id | ById(t, id).Some? :: ById(Insert(t, d), id) == ById(t, id)
    ensures forall r :: r in Insert(t, d) <==> r in t || r == Row(NextId(t), d)
  {
    var r := Row(NextId(t), d);
    AppendIncreases(t, r);
    UniqueIds(t + [r]);
    assert r in t + [r];
    forall id | ById(t, id).Some? ensures ById(Insert(t, d), id) == ById(t, id) {
      assert Row(id, ById(t, id).value) in t + [r];
    }
  }

  lemma {:induction false} EarlierIsLess<T>(t: Table<T>, j: nat, k: nat)
    requires Increasing(t) && j < k < |t|
    ensures t[j].id < t[k].id
  {
    if j == 0 { assert t[k] == t[1..][k - 1]; } else { EarlierIsLess(t[1..], j - 1, k - 1); }
  }

  lemma {:induction false} KeepIncreases<T>(t: Table<T>, p: Row<T> -> bool)
    requires Increasing(t)
    ensures Increasing(Keep(t, p))
  {
    if t != [] {
      KeepIncreases(t[1..], p);
      var k := Keep(t, p);
      if p(t[0]) { assert k[1..] == Keep(t[1..], p); }
    }
  }

  lemma KeepById<T>(t: Table<T>, p: Row<T> -> bool, id: nat)
    requires Increasing(t)
    ensures var d := ById(t, id);
            ById(Keep(t, p), id) == if d.Some? && p(Row(id, d.value)) then d else None
  {
    KeepIncreases(t, p);
    UniqueIds(t);
    UniqueIds(Keep(t, p));
    var d := ById(t, id);
    if d.Some? && p(Row(id, d.value)) { assert Row(id, d.value) in Keep(t, p); }
  }

  lemma {:induction false} KeepAll<T>(t: Table<T>, p: Row<T> -> bool)
    requires forall r | r in t :: p(r)
    ensures Keep(t, p) == t
  {
    if t != [] {
      assert t[0] in t;
      KeepAll(t[1..], p);
    }
  }
}
