/** Last-writer-wins registers: one opinion per statement and signer, the later one kept. */
module Registers {
  import opened Entities
  import opened Store

  /** Which opinion: about which statement, by whom. */
  datatype Key = Key(statement: Contents, signer: PublicKey)

  datatype Entry = Entry(key: Key, stored: Stored)

  type Register = map<Key, Stored>

  /** An entry is taken unless an opinion that is not older is there already. */
  function Put(reg: Register, e: Entry): Register {
    if e.key in reg && !Older(reg[e.key], e.stored) then reg else reg[e.key := e.stored]
  }

  function PutAll(reg: Register, es: seq<Entry>): Register
    decreases |es|
  {
    if es == [] then reg else PutAll(Put(reg, es[0]), es[1..])
  }

  predicate Tied(a: Stored, b: Stored) {
    a.date == b.date && a.serial == b.serial
  }

  /** No two different opinions of one signer on one statement carry the same date and
      serial number. */
  ghost predicate TieFree(es: iset<Entry>) {
    forall a, b | a in es && b in es && a.key == b.key && Tied(a.stored, b.stored) :: a == b
  }

  ghost predicate Within(reg: Register, es: iset<Entry>) {
    forall k | k in reg :: Entry(k, reg[k]) in es
  }

  /** Two deliveries commute unless they tie, differ, and both would be taken. */
  lemma PutCommutes(reg: Register, a: Entry, b: Entry)
    ensures Put(Put(reg, a), b) == Put(Put(reg, b), a) <==>
      !(a.key == b.key && Tied(a.stored, b.stored) && a != b && (a.key in reg ==> Older(reg[a.key], a.stored)))
  {
    var x, y := Put(Put(reg, a), b), Put(Put(reg, b), a);
    if a.key == b.key {
      assert x == reg[a.key := x[a.key]] && y == reg[a.key := y[a.key]];
    } else {
      hide Older;
      assert x == y;
    }
  }

  /** What a key holds at the end: what it held, unless something newer was delivered,
      and then the newest delivered. */
  ghost predicate IsNewest(reg: Register, es: seq<Entry>, k: Key, v: Stored) {
    && ((k in reg && reg[k] == v) || Entry(k, v) in es)
    && (k in reg ==> !Older(v, reg[k]))
    && (forall e | e in es && e.key == k :: !Older(v, e.stored))
  }

  lemma {:induction false} PutAllIsNewest(reg: Register, es: seq<Entry>, k: Key)
    ensures var end := PutAll(reg, es);
            && (k in end <==> k in reg || exists e | e in es :: e.key == k)
            && (k in end ==> IsNewest(reg, es, k, end[k]))
    decreases |es|
  {
    if es != [] {
      PutAllIsNewest(Put(reg, es[0]), es[1..], k);
      assert forall e :: e in es <==> e == es[0] || e in es[1..];
    }
  }

  /** A key about which only one entry is delivered: that entry is written or refused. */
  lemma {:induction false} PutAllOnce(reg: Register, es: seq<Entry>, x: Entry)
    requires forall e | e in es && e.key == x.key :: e == x
    ensures var end := PutAll(reg, es);
            if x in es then x.key in end && end[x.key] == Put(reg, x)[x.key]
            else (x.key in end <==> x.key in reg) && (x.key in reg ==> end[x.key] == reg[x.key])
    decreases |es|
  {
    if es != [] {
      PutAllOnce(Put(reg, es[0]), es[1..], x);
      assert x in es <==> x == es[0] || x in es[1..];
    }
  }

  /** Which of two opinions is newer, as one number: serial numbers are below 256. */
  lemma OlderIsLess(a: Stored, b: Stored)
    ensures Older(a, b) <==> 256 * a.date + a.serial < 256 * b.date + b.serial
  {
  }

  /** Whatever is delivered, in whatever order: a key ends with the latest day, and on that day
      the highest serial number, of what it held and what was delivered. What it held stays
      unless something strictly newer came. */
  lemma {:induction false} GreatestIsKept(reg: Register, es: seq<Entry>, k: Key)
    ensures var end := PutAll(reg, es);
            && (k in end <==> k in reg || exists e | e in es :: e.key == k)
            && (k in end ==> (k in reg && end[k] == reg[k]) || Entry(k, end[k]) in es)
            && (k in reg ==> 256 * reg[k].date + reg[k].serial <= 256 * end[k].date + end[k].serial)
            && (forall e | e in es && e.key == k :: 256 * e.stored.date + e.stored.serial <= 256 * end[k].date + end[k].serial)
            && (k in reg && 256 * reg[k].date + reg[k].serial == 256 * end[k].date + end[k].serial ==> end[k] == reg[k])
    decreases |es|
  {
    if es != [] {
      if k in reg { OlderIsLess(reg[k], es[0].stored); }
      GreatestIsKept(Put(reg, es[0]), es[1..], k);
      assert forall e :: e in es <==> e == es[0] || e in es[1..];
    }
  }

  lemma {:induction false} PutAllWithin(reg: Register, es: seq<Entry>, all: iset<Entry>)
    requires Within(reg, all) && forall e | e in es :: e in all
    ensures Within(PutAll(reg, es), all)
    decreases |es|
  {
    if es != [] {
      PutAllWithin(Put(reg, es[0]), es[1..], all);
    }
  }

  /** Delivery order and repetition do not matter: the same entries, in any order and any
      number, end in the same register. */
  lemma OrderDoesNotMatter(reg: Register, es: seq<Entry>, fs: seq<Entry>, all: iset<Entry>)
    requires TieFree(all) && Within(reg, all)
    requires forall e :: e in es <==> e in fs
    requires forall e | e in es :: e in all
    ensures PutAll(reg, es) == PutAll(reg, fs)
  {
    var x, y := PutAll(reg, es), PutAll(reg, fs);
    forall k ensures k in x <==> k in y {
      PutAllIsNewest(reg, es, k);
      PutAllIsNewest(reg, fs, k);
    }
    PutAllWithin(reg, es, all);
    PutAllWithin(reg, fs, all);
    forall k | k in x ensures x[k] == y[k] {
      PutAllIsNewest(reg, es, k);
      PutAllIsNewest(reg, fs, k);
      assert Entry(k, x[k]) in all && Entry(k, y[k]) in all;
      assert !Older(x[k], y[k]) && !Older(y[k], x[k]);
    }
  }

  /* ---- joining two registers ---- */

  function LaterOf(a: Register, b: Register): Register {
    map k | k in a.Keys + b.Keys ::
      if k !in a then b[k] else if k !in b then a[k] else if Older(a[k], b[k]) then b[k] else a[k]
  }

  /** The join holds one of the two opinions under every key, and the newer one by day and
      serial number. */
  lemma JoinIsGreatest(a: Register, b: Register, k: Key)
    ensures var j := LaterOf(a, b);
            && (k in j <==> k in a || k in b)
            && (k in j ==> (k in a && j[k] == a[k]) || (k in b && j[k] == b[k]))
            && (k in a ==> 256 * a[k].date + a[k].serial <= 256 * j[k].date + j[k].serial)
            && (k in b ==> 256 * b[k].date + b[k].serial <= 256 * j[k].date + j[k].serial)
  {
    if k in a && k in b { OlderIsLess(a[k], b[k]); }
  }

  /** The keys two registers do not hold the same opinion under. */
  function Differing(a: Register, b: Register): set<Key> {
    set k | k in a.Keys + b.Keys && !(k in a && k in b && a[k] == b[k])
  }

  lemma JoinSelf(a: Register)
    ensures LaterOf(a, a) == a
  {
  }

  /** Merging entries of one store into another keeps their join, and brings no new
      difference; an entry that is newer than what is there removes one. */
  lemma {:induction false} MergeProgress(b: Register, a: Register, es: seq<Entry>, all: iset<Entry>)
    requires TieFree(all) && Within(a, all) && Within(b, all)
    requires forall e | e in es :: e.key in a && a[e.key] == e.stored
    ensures var b' := PutAll(b, es);
            && Within(b', all)
            && LaterOf(a, b') == LaterOf(a, b)
            && Differing(a, b') <= Differing(a, b)
            && (forall e | e in es && Takes(b, e) :: e.key in Differing(a, b) && e.key !in Differing(a, b'))
    decreases |es|
  {
    if es != [] {
      var e := es[0];
      var b1 := Put(b, e);
      assert Within(b1, all);
      PutJoin(a, b, e);
      MergeProgress(b1, a, es[1..], all);
      forall f | f in es && Takes(b, f) ensures f.key in Differing(a, b) && f.key !in Differing(a, PutAll(b1, es[1..])) {
        assert f.key in Differing(a, b);
        assert f.key == e.key ==> f == e;
        if f == e {
          assert f.key !in Differing(a, b1);
        } else {
          assert f in es[1..];
        }
      }
    }
  }

  predicate Takes(b: Register, e: Entry) {
    e.key in b ==> Older(b[e.key], e.stored)
  }

  lemma PutJoin(a: Register, b: Register, e: Entry)
    requires e.key in a && a[e.key] == e.stored
    ensures LaterOf(a, Put(b, e)) == LaterOf(a, b)
    ensures Differing(a, Put(b, e)) <= Differing(a, b)
  {
    var b1 := Put(b, e);
    if b1 != b {
      var x, y := LaterOf(a, b1), LaterOf(a, b);
      assert x.Keys == y.Keys;
      forall k | k in x ensures x[k] == y[k] {
        if k != e.key { assert k in b1 <==> k in b; }
      }
    }
  }

  lemma JoinCommutes(a: Register, b: Register, all: iset<Entry>)
    requires TieFree(all) && Within(a, all) && Within(b, all)
    ensures LaterOf(a, b) == LaterOf(b, a)
  {
    hide Older, Tied;
    var x, y := LaterOf(a, b), LaterOf(b, a);
    assert x.Keys == y.Keys;
    forall k | k in x ensures x[k] == y[k] {
      if k in a && k in b {
        assert Entry(k, a[k]) in all && Entry(k, b[k]) in all;
        OlderOrTied(a[k], b[k]);
      }
    }
  }

  lemma OlderOrTied(s: Stored, t: Stored)
    ensures Older(s, t) || Older(t, s) || Tied(s, t)
    ensures !(Older(s, t) && Older(t, s))
  {
  }

  /* ---- ties ---- */

  /** Under some key the registers hold different opinions of one date and serial number. */
  ghost predicate TiedApart(a: Register, b: Register) {
    exists k :: k in a && k in b && Tied(a[k], b[k]) && a[k] != b[k]
  }

  /** Tied opinions stay apart: whatever one register takes over from the other, it keeps its
      own opinion under the tied key. */
  lemma {:induction false} TiedStaysApart(a: Register, b: Register, es: seq<Entry>, k: Key)
    requires k in a && k in b && Tied(a[k], b[k])
    requires forall e | e in es :: e.key in b && b[e.key] == e.stored
    ensures k in PutAll(a, es) && PutAll(a, es)[k] == a[k]
    decreases |es|
  {
    if es != [] {
      TiedStaysApart(Put(a, es[0]), b, es[1..], k);
    }
  }

  /** Everything two registers hold. */
  ghost function HeldBy(a: Register, b: Register): iset<Entry> {
    iset e: Entry | (e.key in a && a[e.key] == e.stored) || (e.key in b && b[e.key] == e.stored)
  }

  lemma UntiedIsTieFree(a: Register, b: Register)
    requires !TiedApart(a, b)
    ensures TieFree(HeldBy(a, b)) && Within(a, HeldBy(a, b)) && Within(b, HeldBy(a, b))
  {
    assert forall k | k in a && k in b && Tied(a[k], b[k]) :: a[k] == b[k];
  }
}
