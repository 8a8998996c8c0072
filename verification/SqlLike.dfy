/** The SQL `LIKE` matcher as SQLite evaluates it, and the kinship relation the
    quarantine table builds from it: `child LIKE base || '/%'`. */
module SqlLike {

  /** ASCII case folding: LIKE ignores the case of the 26 ASCII letters only. */
  function Fold(c: char): char {
    if 'A' <= c <= 'Z' then (c as int + 32) as char else c
  }

  predicate CharMatches(p: char, c: char) {
    p == '_' || Fold(p) == Fold(c)
  }

  predicate Like(text: string, pattern: string)
    decreases |text| + |pattern|
  {
    if pattern == "" then
      text == ""
    else if pattern[0] == '%' then
      Like(text, pattern[1..]) || (text != "" && Like(text[1..], pattern))
    else
      text != "" && CharMatches(pattern[0], text[0]) && Like(text[1..], pattern[1..])
  }

  /** The WHERE clause of both `hasApprovedParent` and `updateLinked`. */
  predicate Kin(child: string, base: string) {
    Like(child, base + "/%")
  }

  predicate PercentFree(s: string) {
    '%' !in s
  }

  /** No '%' stands before a '/': the keys through which kinship composes. */
  predicate SoundLink(b: string) {
    forall i, j :: 0 <= i < j < |b| && b[i] == '%' ==> b[j] != '/'
  }

  function Slashes(s: string): nat {
    if s == "" then 0 else (if s[0] == '/' then 1 else 0) + Slashes(s[1..])
  }

  /** The same character, or the same ASCII letter in the other case. */
  predicate SameLetter(a: char, b: char) {
    || a == b
    || ('A' <= a <= 'Z' && b as int == a as int + 32)
    || ('A' <= b <= 'Z' && a as int == b as int + 32)
  }

  predicate SameButCase(s: string, t: string) {
    |s| == |t| && forall i :: 0 <= i < |s| ==> SameLetter(s[i], t[i])
  }

  // ---------------------------------------------------------------- case

  /** Exactly what one character of a pattern matches; letters beyond ASCII keep their case. */
  lemma CharMatchesExactly(p: char, c: char)
    ensures CharMatches(p, c) <==>
      || p == '_' || p == c
      || ('A' <= p <= 'Z' && c as int == p as int + 32)
      || ('a' <= p <= 'z' && c as int == p as int - 32)
    ensures CharMatches(p, c) <==> p == '_' || SameLetter(p, c)
  {
  }

  lemma MatchIgnoresCase(p: char, q: char, c: char, d: char)
    requires SameLetter(p, q) && SameLetter(c, d)
    ensures CharMatches(p, c) <==> CharMatches(q, d)
    ensures p == '%' <==> q == '%'
  {
  }

  lemma {:induction false} LikeIgnoresCase(t: string, u: string, p: string, q: string)
    requires SameButCase(t, u) && SameButCase(p, q)
    ensures Like(t, p) <==> Like(u, q)
    decreases |t| + |p|
  {
    if p != "" {
      assert SameButCase(p[1..], q[1..]);
      assert SameLetter(p[0], q[0]);
      if t != "" {
        assert SameButCase(t[1..], u[1..]);
        assert SameLetter(t[0], u[0]);
        MatchIgnoresCase(p[0], q[0], t[0], u[0]);
        LikeIgnoresCase(t[1..], u[1..], p, q);
        LikeIgnoresCase(t[1..], u[1..], p[1..], q[1..]);
      }
      LikeIgnoresCase(t, u, p[1..], q[1..]);
    }
  }

  /** Changing the case of ASCII letters in child or base does not change kinship. */
  lemma KinIgnoresCase(child: string, child': string, base: string, base': string)
    requires SameButCase(child, child') && SameButCase(base, base')
    ensures Kin(child, base) <==> Kin(child', base')
  {
    LikeIgnoresCase(child, child', base + "/%", base' + "/%");
  }

  /** Two tags of an image that differ in case only share their blobs. */
  lemma CaseOfTag(image: string, digest: string)
    ensures Kin(image + "/manifests/v1" + "/" + digest, image + "/manifests/V1")
  {
    var key := image + "/manifests/v1";
    var other := image + "/manifests/V1";
    KinOfExtension(key, digest);
    assert SameLetter('v', 'V');
    assert forall i :: 0 <= i < |key| && i != |image| + 11 ==> key[i] == other[i];
    KinIgnoresCase(key + "/" + digest, key + "/" + digest, key, other);
  }

  // ---------------------------------------------------------------- structure of LIKE

  lemma {:induction false} LikeAnything(t: string)
    ensures Like(t, "%")
  {
    if t != "" {
      LikeAnything(t[1..]);
    }
  }

  lemma {:induction false} LikeSelf(s: string)
    ensures Like(s, s)
  {
    if s != "" {
      LikeSelf(s[1..]);
      if s[0] == '%' {
        assert Like(s[1..], s);  // the wildcard eats its own character, then nothing
      }
    }
  }

  lemma {:induction false} LikeConcat(t: string, u: string, p: string, q: string)
    requires Like(t, p) && Like(u, q)
    ensures Like(t + u, p + q)
    decreases |t| + |p|
  {
    if p == "" {
      assert t + u == u && p + q == q;
    } else {
      assert (p + q)[1..] == p[1..] + q;
      if t != "" {
        assert (t + u)[1..] == t[1..] + u;
      }
      if p[0] == '%' {
        if Like(t, p[1..]) {
          LikeConcat(t, u, p[1..], q);
        } else {
          LikeConcat(t[1..], u, p, q);
        }
      } else {
        LikeConcat(t[1..], u, p[1..], q);
      }
    }
  }

  lemma {:induction false} LikeSplit(t: string, p: string, q: string) returns (i: nat)
    requires Like(t, p + q)
    ensures i <= |t| && Like(t[..i], p) && Like(t[i..], q)
    decreases |t| + |p|
  {
    if p == "" {
      i := 0;
      assert p + q == q && t[..0] == "" && t[0..] == t;
    } else {
      assert (p + q)[0] == p[0] && (p + q)[1..] == p[1..] + q;
      if p[0] == '%' && Like(t, p[1..] + q) {
        i := LikeSplit(t, p[1..], q);
      } else if p[0] == '%' {
        i := LikeSplit(t[1..], p, q);
        i := i + 1;
        assert t[..i][1..] == t[1..][..i - 1] && t[i..] == t[1..][i - 1..];
      } else {
        i := LikeSplit(t[1..], p[1..], q);
        i := i + 1;
        assert t[..i][1..] == t[1..][..i - 1] && t[i..] == t[1..][i - 1..];
      }
    }
  }

  /** A pattern without '%' fixes the length and constrains each position alone. */
  lemma {:induction false} LikePositional(t: string, p: string)
    requires PercentFree(p)
    ensures Like(t, p) <==> |t| == |p| && forall i :: 0 <= i < |p| ==> p[i] == '_' || SameLetter(p[i], t[i])
  {
    if p != "" && t != "" {
      assert PercentFree(p[1..]) by {
        assert forall c :: c in p[1..] ==> c in p;
      }
      LikePositional(t[1..], p[1..]);
      assert p[0] in p;
      CharMatchesExactly(p[0], t[0]);
      assert |t| == |p| ==> forall i :: 0 < i < |p| ==> p[i] == p[1..][i - 1] && t[i] == t[1..][i - 1];
    } else if p != "" {
      assert p[0] in p;
    }
  }

  /** What matches a '%'-free key also matches every pattern that key matches. */
  lemma {:induction false} LikeThroughKey(t: string, b: string, p: string)
    requires PercentFree(b) && Like(t, b) && Like(b, p)
    ensures Like(t, p)
    decreases |b| + |p|
  {
    LikePositional(t, b);
    if p != "" && b != "" {
      assert PercentFree(b[1..]) by {
        assert forall c :: c in b[1..] ==> c in b;
      }
      LikePositional(t[1..], b[1..]);
      assert forall i :: 0 <= i < |b[1..]| ==> b[1..][i] == b[i + 1] && t[1..][i] == t[i + 1];
      if p[0] == '%' && Like(b, p[1..]) {
        LikeThroughKey(t, b, p[1..]);
      } else if p[0] == '%' {
        LikeThroughKey(t[1..], b[1..], p);
      } else {
        LikeThroughKey(t[1..], b[1..], p[1..]);
      }
    } else if p != "" {
      LikeThroughKey(t, b, p[1..]);
    }
  }

  // ---------------------------------------------------------------- kinship

  /** Kinship cuts the child at one of its slashes: what stands before it matches the base. */
  lemma KinCut(child: string, base: string) returns (i: nat)
    requires Kin(child, base)
    ensures i < |child| && child[i] == '/' && Like(child[..i], base)
  {
    i := LikeSplit(child, base, "/%");
    assert Like(child[i..], "/%");
  }

  lemma KinJoin(child: string, base: string, i: nat)
    requires i < |child| && child[i] == '/' && Like(child[..i], base)
    ensures Kin(child, base)
  {
    LikeAnything(child[i + 1..]);
    assert "/%"[1..] == "%" && child[i..][1..] == child[i + 1..];
    assert Like(child[i..], "/%");
    LikeConcat(child[..i], child[i..], base, "/%");
    assert child[..i] + child[i..] == child;
  }

  /** Every key is the parent of what is appended to it after a slash, wildcards or not. */
  lemma KinOfExtension(base: string, rest: string)
    ensures Kin(base + "/" + rest, base)
  {
    var child := base + "/" + rest;
    LikeSelf(base);
    assert child[..|base|] == base;
    KinJoin(child, base, |base|);
  }

  lemma {:induction false} LikeKeepsSlashes(t: string, p: string)
    requires Like(t, p)
    ensures Slashes(p) <= Slashes(t)
    decreases |t| + |p|
  {
    if p != "" {
      if p[0] == '%' && Like(t, p[1..]) {
        LikeKeepsSlashes(t, p[1..]);
      } else if p[0] == '%' {
        LikeKeepsSlashes(t[1..], p);
      } else {
        LikeKeepsSlashes(t[1..], p[1..]);
      }
    }
  }

  lemma {:induction false} SlashesConcat(s: string, t: string)
    ensures Slashes(s + t) == Slashes(s) + Slashes(t)
  {
    if s == "" {
      assert s + t == t;
    } else {
      assert (s + t)[1..] == s[1..] + t;
      SlashesConcat(s[1..], t);
    }
  }

  /** A child has strictly more slashes than its base, so kinship is irreflexive and
      asymmetric, and has no cycle of any length. No condition on the keys. */
  lemma KinDescends(child: string, base: string)
    requires Kin(child, base)
    ensures Slashes(base) < Slashes(child)
    ensures child != base
    ensures !Kin(base, child)
  {
    LikeKeepsSlashes(child, base + "/%");
    SlashesConcat(base, "/%");
    assert "/%"[1..] == "%";
    assert Slashes("/%") == 1;
    if Kin(base, child) {
      LikeKeepsSlashes(base, child + "/%");
      SlashesConcat(child, "/%");
    }
  }

  /** Kinship composes through every key in which no '%' stands before a '/'. */
  lemma KinTransitive(a: string, b: string, c: string)
    requires Kin(a, b) && Kin(b, c) && SoundLink(b)
    ensures Kin(a, c)
  {
    var m := KinCut(b, c);
    var h := b[..m];
    assert PercentFree(h) by {
      forall i | 0 <= i < |h| ensures h[i] != '%' {
        assert b[i] == h[i];
      }
    }
    assert b + "/%" == h + (b[m..] + "/%");
    var i := LikeSplit(a, h, b[m..] + "/%");
    assert (b[m..] + "/%")[0] == '/';
    assert Fold('/') == '/';
    assert a[i..] != "" && CharMatches('/', a[i..][0]);
    LikeThroughKey(a[..i], h, c);
    KinJoin(a, c, i);
  }

  /** Through a key with a '%' before a '/', kinship does not compose. */
  lemma KinNotTransitive(b: string) returns (a: string, c: string)
    requires !SoundLink(b)
    ensures Kin(a, b) && Kin(b, c) && !Kin(a, c)
  {
    var p, q :| 0 <= p < q < |b| && b[p] == '%' && b[q] == '/';
    c := seq(q, _ => '_');
    LikePositional(b[..q], c);
    KinJoin(b, c, q);

    var z := seq(q + 1, _ => 'z');
    var long := b[..p] + z + b[p + 1..];
    LikeSelf(b[..p]);
    LikeSelf(b[p + 1..]);
    LikeAnything(z);
    LikeConcat(b[..p], z, b[..p], "%");
    LikeConcat(b[..p] + z, b[p + 1..], b[..p] + "%", b[p + 1..]);
    assert b[..p] + "%" + b[p + 1..] == b;
    a := long + "/";
    assert a[..|long|] == long;
    KinJoin(a, b, |long|);

    assert a[q] == z[q - p] == 'z';
    if Kin(a, c) {
      var i := KinCut(a, c);
      LikePositional(a[..i], c);
    }
  }

  /** The exact condition for kinship to compose through `b`. */
  lemma KinTransitiveExactly(b: string)
    ensures SoundLink(b) <==> forall a, c :: Kin(a, b) && Kin(b, c) ==> Kin(a, c)
  {
    if SoundLink(b) {
      forall a, c | Kin(a, b) && Kin(b, c) ensures Kin(a, c) {
        KinTransitive(a, b, c);
      }
    } else {
      var a, c := KinNotTransitive(b);
    }
  }

  /** On '%'-free keys, '_' or not, kinship is a strict partial order. */
  lemma KinIsStrictOrder(a: string, b: string, c: string)
    requires PercentFree(b)
    ensures !Kin(a, a)
    ensures Kin(a, b) ==> !Kin(b, a)
    ensures Kin(a, b) && Kin(b, c) ==> Kin(a, c)
  {
    if Kin(a, a) {
      KinDescends(a, a);
    }
    if Kin(a, b) {
      KinDescends(a, b);
      if Kin(b, c) {
        assert SoundLink(b) by {
          assert forall i :: 0 <= i < |b| ==> b[i] in b;
        }
        KinTransitive(a, b, c);
      }
    }
  }

  /** Over a base without wildcards, kinship is the case-folded strict path prefix. */
  lemma KinIsPathPrefix(child: string, base: string)
    requires PercentFree(base) && '_' !in base
    ensures Kin(child, base) <==>
            |base| < |child| && child[|base|] == '/' && SameButCase(base, child[..|base|])
  {
    if Kin(child, base) {
      var i := KinCut(child, base);
      LikePositional(child[..i], base);
      assert forall j :: 0 <= j < |base| ==> base[j] in base;
    }
    if |base| < |child| && child[|base|] == '/' && SameButCase(base, child[..|base|]) {
      LikePositional(child[..|base|], base);
      KinJoin(child, base, |base|);
    }
  }
}
