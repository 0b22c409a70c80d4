/** The database's order on text (byte by byte, a prefix first), and sorting by it. */
module Order {

  predicate LessEq(a: string, b: string) {
    if a == [] then true
    else if b == [] then false
    else if a[0] != b[0] then a[0] < b[0]
    else LessEq(a[1..], b[1..])
  }

  lemma {:induction false} Total(a: string, b: string)
    ensures LessEq(a, b) || LessEq(b, a)
    ensures LessEq(a, b) && LessEq(b, a) ==> a == b
  {
    if a != [] && b != [] && a[0] == b[0] {
      Total(a[1..], b[1..]);
      assert a == [a[0]] + a[1..] && b == [b[0]] + b[1..];
    }
  }

  lemma {:induction false} Transitive(a: string, b: string, c: string)
    requires LessEq(a, b) && LessEq(b, c)
    ensures LessEq(a, c)
  {
    if a != [] && a[0] == b[0] == c[0] {
      Transitive(a[1..], b[1..], c[1..]);
    }
  }

  lemma {:induction false} Reflexive(a: string)
    ensures LessEq(a, a)
  {
    if a != [] { Reflexive(a[1..]); }
  }

  /** Text of equal length is ordered by its first part, then by the rest. */
  lemma {:induction false} LessEqAppend(s: string, t: string, u: string, v: string)
    requires |s| == |t|
    ensures LessEq(s + u, t + v) <==> if s == t then LessEq(u, v) else LessEq(s, t)
  {
    if s == [] {
      assert s + u == u && t + v == v;
    } else {
      LessEqAppend(s[1..], t[1..], u, v);
      assert (s + u)[1..] == s[1..] + u && (t + v)[1..] == t[1..] + v;
      assert s == [s[0]] + s[1..] && t == [t[0]] + t[1..];
    }
  }
}
