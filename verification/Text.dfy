/** Characters, spans and delimiters: the string vocabulary shared by the grammar
    and by the semicolon and newline separated formats. */
module Text {

  /** The character classes the recognizers are built from. */
  datatype Class = Alpha | Digit | Alnum | NameTail | LabelTail | Local | Base64Body | Pad | Hex | HexColon | Blank

  predicate IsAlpha(c: char) { 'a' <= c <= 'z' || 'A' <= c <= 'Z' }

  predicate IsDigit(c: char) { '0' <= c <= '9' }

  predicate IsHex(c: char) { IsDigit(c) || 'a' <= c <= 'f' || 'A' <= c <= 'F' }

  const LOCAL_SPECIALS := ".!#$%&'*+-/=?^_`{|}~"

  predicate In(c: char, cls: Class) {
    match cls
    case Alpha => IsAlpha(c)
    case Digit => IsDigit(c)
    case Alnum => IsAlpha(c) || IsDigit(c)
    case NameTail => IsAlpha(c) || c == '_'
    case LabelTail => IsAlpha(c) || IsDigit(c) || c == '-'
    case Local => IsAlpha(c) || IsDigit(c) || c in LOCAL_SPECIALS
    case Base64Body => IsAlpha(c) || IsDigit(c) || c == '.' || c == '/' || c == '+'
    case Pad => c == '='
    case Hex => IsHex(c)
    case HexColon => IsHex(c) || c == ':'
    case Blank => c == ' ' || c == '\t'
  }

  predicate AllIn(s: string, cls: Class) {
    forall k | 0 <= k < |s| :: In(s[k], cls)
  }

  /** How far a greedy run of `cls` characters reaches into `s`. */
  function Span(s: string, cls: Class): (n: nat)
    ensures n <= |s|
    ensures forall k | 0 <= k < n :: In(s[k], cls)
    ensures n < |s| ==> !In(s[n], cls)
  {
    if s == [] || !In(s[0], cls) then 0 else 1 + Span(s[1..], cls)
  }

  /** A run of `cls` characters that something else follows is spanned exactly. */
  lemma {:induction false} SpanIs(s: string, n: nat, cls: Class)
    requires n <= |s|
    requires forall k | 0 <= k < n :: In(s[k], cls)
    requires n < |s| ==> !In(s[n], cls)
    ensures Span(s, cls) == n
  {
    if n > 0 {
      SpanIs(s[1..], n - 1, cls);
    }
  }

  /** A span ends at the latest where a character of another class stands. */
  lemma {:induction false} SpanStops(s: string, n: nat, cls: Class)
    requires n < |s| ==> !In(s[n], cls)
    ensures Span(s, cls) <= n
  {
    if n > 0 && s != [] {
      SpanStops(s[1..], n - 1, cls);
    }
  }

  /** The text up to the first `c`, and everything after it, repeatedly. */
  function Split(s: string, c: char): (parts: seq<string>)
    ensures |parts| >= 1
  {
    if s == [] then [""]
    else
      var rest := Split(s[1..], c);
      if s[0] == c then [""] + rest else [[s[0]] + rest[0]] + rest[1..]
  }

  function Join(parts: seq<string>, c: char): string {
    if |parts| == 0 then ""
    else if |parts| == 1 then parts[0]
    else parts[0] + [c] + Join(parts[1..], c)
  }

  lemma {:induction false} SplitStep(p: string, c: char, s: string)
    requires c !in p
    ensures Split(p + [c] + s, c) == [p] + Split(s, c)
  {
    if p == [] {
      assert ([c] + s)[1..] == s;
      assert p + [c] + s == [c] + s;
    } else {
      SplitStep(p[1..], c, s);
      assert (p + [c] + s)[1..] == p[1..] + [c] + s;
      assert [p[0]] + p[1..] == p;
    }
  }

  lemma {:induction false} SplitNone(p: string, c: char)
    requires c !in p
    ensures Split(p, c) == [p]
  {
    if p != [] {
      SplitNone(p[1..], c);
      assert [p[0]] + p[1..] == p;
    }
  }

  lemma {:induction false} SplitJoinClean(parts: seq<string>, c: char)
    requires |parts| >= 1
    requires forall p | p in parts :: c !in p
    ensures Split(Join(parts, c), c) == parts
  {
    if |parts| == 1 {
      SplitNone(parts[0], c);
    } else {
      SplitJoinClean(parts[1..], c);
      SplitStep(parts[0], c, Join(parts[1..], c));
    }
  }

  lemma {:induction false} JoinChars(parts: seq<string>, c: char, x: char)
    requires x in Join(parts, c)
    ensures x == c || exists p | p in parts :: x in p
  {
    if |parts| > 1 && x != c && x !in parts[0] {
      assert x in Join(parts[1..], c);
      JoinChars(parts[1..], c, x);
    } else if |parts| >= 1 {
      assert parts[0] in parts;
    }
  }
}
