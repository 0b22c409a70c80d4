/** The keys under which statements about an entity are looked up. */
module LookupKeys {
  import opened Text
  import opened Entities
  import opened Options

  function Find(s: string, c: char): (n: Option<nat>)
    ensures n.None? <==> c !in s
    ensures n.Some? ==> n.value < |s| && s[n.value] == c && c !in s[..n.value]
  {
    if s == "" then None
    else if s[0] == c then Some(0)
    else
      match Find(s[1..], c)
      case None => None
      case Some(n) =>
        assert s[..n + 1] == [s[0]] + s[1..][..n];
        Some(n + 1)
  }

  /** The domain above this one; a top-level domain is marked by a trailing dot. */
  function SuperDomain(s: string): Option<string> {
    match Find(s, '.')
    case None => None
    case Some(n) =>
      if n == |s| - 1 then None
      else
        var above := s[n + 1..];
        Some(if '.' in above then above else above + ".")
  }

  function DomainOf(e: Entity): Option<Entity>
    requires e.EMail? ==> '@' in e.address
  {
    match e
    case EMail(a) => Some(Domain(a[Find(a, '@').value + 1..]))
    case Domain(s) =>
      (match SuperDomain(s)
       case None => None
       case Some(above) => Some(Domain(above)))
    case _ => None
  }

  /** Length alone does not fall: the domain above `.b` is `b.`. */
  function Measure(s: string): nat {
    2 * |s| - if s != "" && s[|s| - 1] == '.' then 1 else 0
  }

  lemma SuperDomainIsSmaller(s: string)
    ensures SuperDomain(s).Some? ==> Measure(SuperDomain(s).value) < Measure(s)
  {
  }

  function DomainKeys(s: string): seq<Entity>
    decreases Measure(s)
  {
    SuperDomainIsSmaller(s);
    match SuperDomain(s)
    case None => [Domain(s)]
    case Some(above) => [Domain(s)] + DomainKeys(above)
  }

  function AllKeys(e: Entity): seq<Entity>
    requires e.EMail? ==> '@' in e.address
  {
    match e
    case EMail(a) => [e, HashEmails(e)] + DomainKeys(DomainOf(e).value.domain)
    case Domain(s) => DomainKeys(s)
    case _ => [e]
  }

  /** The recursion of the source, ending on every text whatever its dots. */
  method AllLookupKeys(e: Entity) returns (result: seq<Entity>)
    requires e.EMail? ==> '@' in e.address
    ensures result == AllKeys(e)
    ensures e.EMail? ==> |result| > 2 && result[0] == e && result[1] == HashValue(SHA256_BASE64(e.address))
    decreases if e.EMail? then 1 else 0, if e.Domain? then Measure(e.domain) else 0
  {
    match e {
      case EMail(_) =>
        result := [e, HashEmails(e)];
        var domains := AllLookupKeys(DomainOf(e).value);
        result := result + domains;
      case Domain(s) =>
        result := [e];
        SuperDomainIsSmaller(s);
        if DomainOf(e).Some? {
          var above := AllLookupKeys(DomainOf(e).value);
          result := result + above;
        }
      case _ =>
        result := [e];
    }
  }

  predicate IsDomainLabel(l: string) {
    l != "" && '.' !in l
  }

  /** The key for the labels from `k` on. */
  function SuffixKey(labels: seq<string>, k: nat): Entity
    requires k < |labels|
  {
    Domain(Join(labels[k..], '.') + if k > 0 && k == |labels| - 1 then "." else "")
  }

  lemma {:induction false} FindFirst(p: string, c: char, rest: string)
    requires c !in p
    ensures Find(p + [c] + rest, c) == Some(|p|)
  {
    if p == "" {
      assert (p + [c] + rest)[0] == c;
    } else {
      FindFirst(p[1..], c, rest);
      assert (p + [c] + rest)[1..] == p[1..] + [c] + rest;
    }
  }

  lemma {:induction false} LabelsInJoin(labels: seq<string>)
    requires labels != [] && forall l | l in labels :: IsDomainLabel(l)
    ensures '.' in Join(labels, '.') <==> |labels| > 1
    ensures Join(labels, '.') != ""
    ensures Join(labels, '.')[|Join(labels, '.')| - 1] != '.'
  {
    assert IsDomainLabel(labels[0]);
    if |labels| > 1 { LabelsInJoin(labels[1..]); }
  }

  /** A domain of k labels has exactly its k label suffixes as keys, longest first; the
      last label stands with a trailing dot unless it is the whole domain. */
  lemma {:induction false} KeysAreSuffixes(labels: seq<string>)
    requires labels != [] && forall l | l in labels :: IsDomainLabel(l)
    ensures var keys := DomainKeys(Join(labels, '.'));
            |keys| == |labels| && forall k | 0 <= k < |labels| :: keys[k] == SuffixKey(labels, k)
  {
    var s := Join(labels, '.');
    LabelsInJoin(labels);
    assert labels[0..] == labels;
    assert IsDomainLabel(labels[0]);
    if |labels| == 1 {
      assert s + "" == s;
    } else {
      var above := Join(labels[1..], '.');
      assert s == labels[0] + ['.'] + above;
      FindFirst(labels[0], '.', above);
      LabelsInJoin(labels[1..]);
      assert s[|labels[0]| + 1..] == above;
      assert s + "" == s;
      if |labels| == 2 {
        assert labels[1..] == [labels[1]];
        FindFirst(labels[1], '.', "");
        assert above + "." == labels[1] + ['.'] + "";
        SuperDomainIsSmaller(s);
      } else {
        KeysAreSuffixes(labels[1..]);
        hide SuffixKey, Join;
        SuperDomainIsSmaller(s);
        LaterSuffixes(labels, DomainKeys(above));
      }
    }
  }

  lemma LaterSuffixes(labels: seq<string>, keys: seq<Entity>)
    requires |labels| > 2 && |keys| == |labels| - 1
    requires forall k | 0 <= k < |keys| :: keys[k] == SuffixKey(labels[1..], k)
    ensures forall k | 1 <= k < |labels| :: keys[k - 1] == SuffixKey(labels, k)
  {
    forall k | 1 <= k < |labels| ensures keys[k - 1] == SuffixKey(labels, k) {
      assert labels[1..][k - 1..] == labels[k..];
      assert keys[k - 1] == SuffixKey(labels[1..], k - 1);
    }
  }

  /** The keys for a domain of these labels. */
  function SuffixKeys(labels: seq<string>): seq<Entity> {
    seq(|labels|, k requires 0 <= k < |labels| => SuffixKey(labels, k))
  }

  lemma DomainKeysAre(labels: seq<string>)
    requires labels != [] && forall l | l in labels :: IsDomainLabel(l)
    ensures AllKeys(Domain(Join(labels, '.'))) == SuffixKeys(labels)
  {
    hide Join, SuffixKey;
    KeysAreSuffixes(labels);
  }

  /** A mail address is looked up itself, then by its hash, then by its domain and the domains
      above, longest first. */
  lemma AddressKeysAre(l: string, labels: seq<string>)
    requires '@' !in l && labels != [] && forall p | p in labels :: IsDomainLabel(p)
    ensures var a := l + "@" + Join(labels, '.');
            '@' in a && AllKeys(EMail(a)) == [EMail(a), HashValue(SHA256_BASE64(a))] + SuffixKeys(labels)
  {
    hide Join, SuffixKey, SuffixKeys, Find, DomainKeys, IsDomainLabel;
    var d := Join(labels, '.');
    var a := l + "@" + d;
    assert a == l + ['@'] + d;
    assert a[|l|] == '@' && a[|l| + 1..] == d;
    FindFirst(l, '@', d);
    DomainKeysAre(labels);
  }
}
