/** The few functions of Go's `strings` package the drivers build their keys with. */
module Strings {
  import opened Wrappers

  predicate Occurs(s: string, sub: string, i: nat) {
    i + |sub| <= |s| && s[i..i + |sub|] == sub
  }

  predicate Contains(s: string, sub: string) {
    exists i: nat :: i <= |s| && Occurs(s, sub, i)
  }

  predicate HasPrefix(s: string, prefix: string) {
    prefix <= s
  }

  predicate HasSuffix(s: string, suffix: string) {
    |suffix| <= |s| && s[|s| - |suffix|..] == suffix
  }

  function TrimPrefix(s: string, prefix: string): string {
    if prefix <= s then s[|prefix|..] else s
  }

  /** The first occurrence at `from` or later. */
  function IndexFrom(s: string, sub: string, from: nat): (r: Option<nat>)
    ensures r.Some? ==> from <= r.value && Occurs(s, sub, r.value) && forall j: nat :: from <= j < r.value ==> !Occurs(s, sub, j)
    ensures r.None? ==> forall j: nat :: from <= j ==> !Occurs(s, sub, j)
    decreases |s| - from
  {
    if |s| < from + |sub| then None
    else if Occurs(s, sub, from) then Some(from)
    else IndexFrom(s, sub, from + 1)
  }

  function Index(s: string, sub: string): (r: Option<nat>)
    ensures r.Some? <==> Contains(s, sub)
    ensures r.Some? ==> Occurs(s, sub, r.value) && forall j: nat :: j < r.value ==> !Occurs(s, sub, j)
  {
    IndexFrom(s, sub, 0)
  }

  /** The last occurrence before or at `to`. */
  function LastIndexTo(s: string, sub: string, to: nat): (r: Option<nat>)
    ensures r.Some? ==> r.value <= to && Occurs(s, sub, r.value) && forall j: nat :: r.value < j <= to ==> !Occurs(s, sub, j)
    ensures r.None? ==> forall j: nat :: j <= to ==> !Occurs(s, sub, j)
  {
    if Occurs(s, sub, to) then Some(to)
    else if to == 0 then None
    else LastIndexTo(s, sub, to - 1)
  }

  function LastIndex(s: string, sub: string): (r: Option<nat>)
    ensures r.Some? <==> Contains(s, sub)
    ensures r.Some? ==> Occurs(s, sub, r.value) && forall j: nat :: r.value < j ==> !Occurs(s, sub, j)
  {
    LastIndexTo(s, sub, |s|)
  }

  /** The number of non-overlapping occurrences at `from` or later, counted from the left. */
  function CountFrom(s: string, sub: string, from: nat): nat
    requires sub != ""
    decreases |s| - from
  {
    match IndexFrom(s, sub, from)
    case None => 0
    case Some(i) => 1 + CountFrom(s, sub, i + |sub|)
  }

  function Count(s: string, sub: string): nat
    requires sub != ""
  {
    CountFrom(s, sub, 0)
  }

  /** Extending a string on the right keeps the occurrences that fit in it. */
  lemma OccursExtended(s: string, t: string, sub: string, i: nat)
    requires i + |sub| <= |s|
    ensures Occurs(s + t, sub, i) <==> Occurs(s, sub, i)
  {
    assert (s + t)[i..i + |sub|] == s[i..i + |sub|];
  }

  lemma OccursShifted(s: string, t: string, sub: string, i: nat)
    ensures Occurs(s + t, sub, |s| + i) <==> Occurs(t, sub, i)
  {
    if i + |sub| <= |t| {
      assert (s + t)[|s| + i..|s| + i + |sub|] == t[i..i + |sub|];
    }
  }

  lemma ContainsExtended(s: string, t: string, sub: string)
    requires Contains(s, sub)
    ensures Contains(s + t, sub)
  {
    var i := Index(s, sub).value;
    OccursExtended(s, t, sub, i);
  }

  lemma ContainsShifted(s: string, t: string, sub: string)
    requires Contains(t, sub)
    ensures Contains(s + t, sub)
  {
    var i := Index(t, sub).value;
    OccursShifted(s, t, sub, i);
  }

  /** The first occurrence does not move when the string grows on the right. */
  lemma IndexExtended(s: string, t: string, sub: string)
    requires Contains(s, sub)
    ensures Index(s + t, sub) == Index(s, sub)
  {
    var i := Index(s, sub).value;
    OccursExtended(s, t, sub, i);
    var j := Index(s + t, sub);
    ContainsExtended(s, t, sub);
    if j.value < i {
      OccursExtended(s, t, sub, j.value);
    }
  }

  lemma TrimPrefixExtended(s: string, t: string, prefix: string)
    requires |prefix| <= |s|
    ensures TrimPrefix(s + t, prefix) == TrimPrefix(s, prefix) + t
  {
    assert (s + t)[..|prefix|] == s[..|prefix|];
    if prefix <= s {
      assert (s + t)[|prefix|..] == s[|prefix|..] + t;
    }
  }
}
