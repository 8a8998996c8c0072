/** Docker cache keys and the digest index. A blob key is built from the key of its
    manifest; digest and upstream URL are read back from it. */
module Docker {
  import opened Wrappers
  import opened Strings
  import opened SqlLike

  const MANIFESTS := "/manifests/"
  const BLOBS := "/blobs/"

  predicate IsManifest(relPath: string) {
    Contains(relPath, MANIFESTS) && !Contains(relPath, BLOBS)
  }

  predicate IsBlob(relPath: string) {
    Contains(relPath, BLOBS)
  }

  /** What follows the last "/blobs/". */
  function ExtractDigest(relPath: string): string {
    match LastIndex(relPath, BLOBS)
    case Some(i) => relPath[i + 7..]
    case None => ""
  }

  function CutFirst(path: string, seps: seq<string>): (string, string) {
    if seps == [] then (path, "")
    else match Index(path, seps[0])
      case Some(i) => (path[..i], path[i + |seps[0]|..])
      case None => CutFirst(path, seps[1..])
  }

  /** Image name and reference of a path. */
  function ParseDockerPath(relPath: string): (string, string) {
    CutFirst(TrimPrefix(relPath, "v2/"), [MANIFESTS, BLOBS, "/tags/"])
  }

  function BlobUpstreamURL(upstream: string, blobKey: string): string {
    var relPath := TrimPrefix(TrimPrefix(blobKey, "docker/"), "v2/");
    match Index(relPath, MANIFESTS)
    case None => upstream + "/v2/" + relPath
    case Some(i) => upstream + "/v2/" + relPath[..i] + "/blobs/" + ExtractDigest(blobKey)
  }

  datatype Mode = NoQuarantine | Self

  function QuarantineDecision(cacheKey: string): Mode {
    var relPath := TrimPrefix(cacheKey, "docker/");
    if IsManifest(relPath) then Self
    else if IsBlob(relPath) && Contains(relPath, MANIFESTS) then Self
    else NoQuarantine
  }

  predicate IsDockerChildKey(cacheKey: string) {
    Contains(cacheKey, BLOBS) || Count(cacheKey, MANIFESTS) > 1
  }

  // ---------------------------------------------------------------- building keys

  /** The key of a tag's manifest: the request path without the "/v2/" the driver serves. */
  function TagKey(name: string, tag: string): string {
    "docker/" + TagPath(name, tag)
  }

  function TagPath(name: string, tag: string): string {
    name + MANIFESTS + tag
  }

  function SubKey(parentKey: string, digest: string): string {
    parentKey + MANIFESTS + digest
  }

  /** The key of a manifest nested under the digests in `path`. */
  function NestedKey(key: string, path: seq<string>): string {
    if path == [] then key else SubKey(NestedKey(key, path[..|path| - 1]), path[|path| - 1])
  }

  function BlobKey(manifestKey: string, digest: string): string {
    manifestKey + BLOBS + digest
  }

  /** The image name `OnQuarantine` works out once and hands down to every prefetch. */
  function ImageName(manifestKey: string): string {
    ParseDockerPath(TrimPrefix(manifestKey, "docker/")).0
  }

  function PrefetchURL(upstream: string, imageName: string, digest: string): string {
    upstream + "/v2/" + imageName + "/blobs/" + digest
  }

  /** Reading the digest back from the key works exactly for digests without a "/blobs/"
      of their own, counting the slash before them. */
  lemma DigestRoundTrip(manifestKey: string, digest: string)
    ensures ExtractDigest(BlobKey(manifestKey, digest)) == digest <==> !Contains("/" + digest, BLOBS)
  {
    var key := BlobKey(manifestKey, digest);
    var head := manifestKey + "/blobs";
    assert BLOBS == "/blobs" + "/";
    assert key == head + ("/" + digest);
    BlobsAt(manifestKey, digest);
    var last := LastIndex(key, BLOBS).value;
    if Contains("/" + digest, BLOBS) {
      OccursShifted(head, "/" + digest, BLOBS, Index("/" + digest, BLOBS).value);
    } else {
      if |head| <= last {
        OccursShifted(head, "/" + digest, BLOBS, last - |head|);
      }
      if |manifestKey| < last {
        BlobsDoNotOverlap(key, |manifestKey|, last);
      }
    }
  }

  lemma BlobsAt(manifestKey: string, digest: string)
    ensures Occurs(BlobKey(manifestKey, digest), BLOBS, |manifestKey|)
    ensures BlobKey(manifestKey, digest)[|manifestKey| + 7..] == digest
    ensures Contains(BlobKey(manifestKey, digest), BLOBS)
  {
    var key := BlobKey(manifestKey, digest);
    assert key[|manifestKey|..|manifestKey| + 7] == BLOBS;
    ContainsMiddle(manifestKey, BLOBS, digest);
  }

  /** Two occurrences of "/blobs/" share at most their bordering slash. */
  lemma BlobsDoNotOverlap(s: string, i: nat, j: nat)
    requires i < j && Occurs(s, BLOBS, i) && Occurs(s, BLOBS, j)
    ensures i + 6 <= j
  {
    assert s[j] == s[j..j + 7][0] == '/';
    var w := s[i..i + 7];
    assert s[i + 1] == w[1] && s[i + 2] == w[2] && s[i + 3] == w[3] && s[i + 4] == w[4] && s[i + 5] == w[5];
  }

  lemma {:induction false} NestedKeyExtends(key: string, path: seq<string>) returns (rest: string)
    ensures NestedKey(key, path) == key + rest
    ensures if path == [] then rest == "" else HasPrefix(rest, MANIFESTS)
  {
    if path == [] {
      rest := "";
    } else {
      rest := NestedKeyExtends(key, path[..|path| - 1]);
      rest := rest + MANIFESTS + path[|path| - 1];
    }
  }

  lemma ContainsMiddle(a: string, b: string, c: string)
    ensures Contains(a + b + c, b)
  {
    assert (b + c)[..|b|] == b;
    assert Occurs(b + c, b, 0);
    ContainsShifted(a, b + c, b);
    assert a + (b + c) == a + b + c;
  }

  /** A key beneath a tag key, without the driver's name. */
  lemma TrimmedKey(name: string, tag: string, more: string)
    ensures TrimPrefix(TagKey(name, tag) + more, "docker/") == TagPath(name, tag) + more
  {
    assert TagKey(name, tag) + more == "docker/" + (TagPath(name, tag) + more);
  }

  /** What `parseDockerPath` looks for separators in: a leading "v2/" is taken for the prefix. */
  function SearchedPath(name: string, tag: string): string {
    TrimPrefix(TagPath(name, tag), "v2/")
  }

  lemma SearchedExtended(name: string, tag: string, more: string)
    ensures TrimPrefix(TagPath(name, tag) + more, "v2/") == SearchedPath(name, tag) + more
  {
    TrimPrefixExtended(TagPath(name, tag), more, "v2/");
  }

  /** Only for the image "v2" does that swallow the slash of the separator. */
  lemma SearchedShape(name: string, tag: string)
    ensures HasPrefix(name, "v2/") ==> SearchedPath(name, tag) == TagPath(name[3..], tag)
    ensures name == "v2" ==> SearchedPath(name, tag) == "manifests/" + tag
    ensures !HasPrefix(name, "v2/") && name != "v2" ==> SearchedPath(name, tag) == TagPath(name, tag)
  {
    var path := TagPath(name, tag);
    assert path == name + (MANIFESTS + tag);
    if HasPrefix(name, "v2/") {
      assert path[..3] == name[..3];
      assert path[3..] == name[3..] + (MANIFESTS + tag);
    } else if name == "v2" {
      assert path == "v2/" + ("manifests/" + tag);
    } else {
      NotTrimmed(name, tag);
    }
  }

  lemma NotTrimmed(name: string, tag: string)
    requires !HasPrefix(name, "v2/") && name != "v2"
    ensures !HasPrefix(TagPath(name, tag), "v2/")
  {
    var path := TagPath(name, tag);
    if |name| >= 3 {
      assert path[..3] == name[..3];
    } else if |name| < 2 {
      assert path[|name|] == '/';
    } else {
      assert path[0] == name[0] && path[1] == name[1];
      assert name == [name[0], name[1]];
    }
  }

  lemma SearchedContains(name: string, tag: string)
    requires name != "v2"
    ensures Contains(SearchedPath(name, tag), MANIFESTS)
  {
    SearchedShape(name, tag);
    ContainsMiddle(name, MANIFESTS, tag);
    if HasPrefix(name, "v2/") {
      ContainsMiddle(name[3..], MANIFESTS, tag);
    }
  }

  lemma NameInPath(name: string, tag: string)
    requires Contains(SearchedPath(name, tag), MANIFESTS)
    ensures ImageName(TagKey(name, tag)) == SearchedPath(name, tag)[..Index(SearchedPath(name, tag), MANIFESTS).value]
  {
    TrimmedKey(name, tag, "");
    assert TagKey(name, tag) + "" == TagKey(name, tag) && TagPath(name, tag) + "" == TagPath(name, tag);
  }

  /** Two occurrences of "/manifests/" share at most their bordering slash. */
  lemma ManifestsDoNotOverlap(s: string, i: nat, j: nat)
    requires i < j && Occurs(s, MANIFESTS, i) && Occurs(s, MANIFESTS, j)
    ensures i + 10 <= j
  {
    assert s[j] == s[j..j + 11][0] == '/';
    var w := s[i..i + 11];
    forall k | i < k < i + 10 ensures s[k] != '/' {
      assert s[k] == w[k - i];
    }
  }

  lemma EarlierSeparator(name: string, tag: string, i: nat)
    requires i < |name| && Occurs(TagPath(name, tag), MANIFESTS, i)
    ensures Occurs(name + "/", MANIFESTS, i)
  {
    var path := TagPath(name, tag);
    assert path[|name|..|name| + 11] == MANIFESTS;
    ManifestsDoNotOverlap(path, i, |name|);
    assert path == (name + "/") + ("manifests/" + tag);
    OccursExtended(name + "/", "manifests/" + tag, MANIFESTS, i);
  }

  lemma SeparatorAfterName(name: string, tag: string)
    ensures Occurs(TagPath(name, tag), MANIFESTS, |name|)
    ensures Index(TagPath(name, tag), MANIFESTS).Some? && Index(TagPath(name, tag), MANIFESTS).value <= |name|
  {
    var path, n: nat := TagPath(name, tag), |name|;
    assert path[n..n + 11] == MANIFESTS;
    assert Occurs(path, MANIFESTS, n);
    ContainsMiddle(name, MANIFESTS, tag);
    assert !(n < Index(path, MANIFESTS).value);
  }

  lemma SeparatorInName(name: string, tag: string)
    requires Contains(name + "/", MANIFESTS)
    ensures Contains(TagPath(name, tag), MANIFESTS) && Index(TagPath(name, tag), MANIFESTS).value < |name|
  {
    var rest := "manifests/" + tag;
    assert TagPath(name, tag) == (name + "/") + rest;
    ContainsExtended(name + "/", rest, MANIFESTS);
    IndexExtended(name + "/", rest, MANIFESTS);
  }

  /** The first separator of a path is the one after the name, unless the name has one. */
  lemma FirstSeparator(name: string, tag: string)
    ensures Index(TagPath(name, tag), MANIFESTS).Some? && Index(TagPath(name, tag), MANIFESTS).value <= |name|
    ensures Index(TagPath(name, tag), MANIFESTS) == Some(|name|) <==> !Contains(name + "/", MANIFESTS)
  {
    SeparatorAfterName(name, tag);
    var i := Index(TagPath(name, tag), MANIFESTS).value;
    if i < |name| {
      EarlierSeparator(name, tag, i);
    }
    if Contains(name + "/", MANIFESTS) {
      SeparatorInName(name, tag);
    }
  }

  /** The image the prefetch goes to is the one requested if and only if its name neither
      begins with the path element "v2" nor contains a "/manifests/" of its own. */
  lemma ImageNameExactly(name: string, tag: string)
    ensures ImageName(TagKey(name, tag)) == name <==> !HasPrefix(name + "/", "v2/") && !Contains(name + "/", MANIFESTS)
  {
    SearchedShape(name, tag);
    if name == "v2" {
      ImageOfV2(tag);
    } else {
      SearchedContains(name, tag);
      NameInPath(name, tag);
      V2Element(name);
      if HasPrefix(name, "v2/") {
        FirstSeparator(name[3..], tag);
      } else {
        FirstSeparator(name, tag);
        assert TagPath(name, tag)[..|name|] == name;
      }
    }
  }

  lemma V2Element(name: string)
    requires name != "v2"
    ensures HasPrefix(name + "/", "v2/") <==> HasPrefix(name, "v2/")
  {
    if |name| >= 3 {
      assert (name + "/")[..3] == name[..3];
    } else if |name| == 2 {
      assert name == [name[0], name[1]];
      assert (name + "/")[0] == name[0] && (name + "/")[1] == name[1];
    }
  }

  lemma {:induction false} CutFirstIsPrefix(path: string, seps: seq<string>)
    ensures CutFirst(path, seps).0 <= path
  {
    if seps != [] && Index(path, seps[0]).None? {
      CutFirstIsPrefix(path, seps[1..]);
    }
  }

  /** The image "v2" is taken for one whose name begins with "manifests". */
  lemma ImageOfV2(tag: string)
    ensures ImageName(TagKey("v2", tag)) <= "manifests/" + tag && ImageName(TagKey("v2", tag)) != "v2"
  {
    TrimmedKey("v2", tag, "");
    SearchedShape("v2", tag);
    assert TagKey("v2", tag) + "" == TagKey("v2", tag) && TagPath("v2", tag) + "" == TagPath("v2", tag);
    var image := ImageName(TagKey("v2", tag));
    CutFirstIsPrefix("manifests/" + tag, [MANIFESTS, BLOBS, "/tags/"]);
    assert image != "" ==> image[0] == 'm';
  }

  /** An image beneath "v2" is prefetched from the image without that element. */
  lemma V2IsDropped(image: string, tag: string)
    ensures ImageName(TagKey("v2/" + image, tag)) == image <==> !Contains(image + "/", MANIFESTS)
  {
    var name := "v2/" + image;
    assert name[3..] == image;
    SearchedShape(name, tag);
    SearchedContains(name, tag);
    NameInPath(name, tag);
    FirstSeparator(image, tag);
    assert TagPath(image, tag)[..|image|] == image;
  }

  lemma BlobKeyShape(key: string, path: seq<string>, digest: string) returns (more: string)
    ensures BlobKey(NestedKey(key, path), digest) == key + more
    ensures more != "" && more[0] == '/' && (path != [] ==> HasPrefix(more, MANIFESTS)) && 7 + |digest| <= |more|
    ensures path == [] ==> more == BLOBS + digest
  {
    var rest := NestedKeyExtends(key, path);
    more := rest + BLOBS + digest;
    Associate(key, rest, BLOBS, digest);
  }

  lemma SubKeyShape(key: string, path: seq<string>, digest: string) returns (more: string)
    ensures SubKey(NestedKey(key, path), digest) == key + more
    ensures more != "" && more[0] == '/' && Contains(more, MANIFESTS)
  {
    var rest := NestedKeyExtends(key, path);
    more := rest + MANIFESTS + digest;
    Associate(key, rest, MANIFESTS, digest);
    ContainsMiddle(rest, MANIFESTS, digest);
  }

  lemma Associate(a: string, b: string, c: string, d: string)
    ensures a + b + c + d == a + (b + c + d)
  {
  }

  lemma UpstreamOfExtension(upstream: string, name: string, tag: string, more: string)
    requires Contains(SearchedPath(name, tag), MANIFESTS)
    ensures BlobUpstreamURL(upstream, TagKey(name, tag) + more) ==
            PrefetchURL(upstream, ImageName(TagKey(name, tag)), ExtractDigest(TagKey(name, tag) + more))
  {
    var path := SearchedPath(name, tag);
    TrimmedKey(name, tag, more);
    SearchedExtended(name, tag, more);
    IndexExtended(path, more, MANIFESTS);
    NameInPath(name, tag);
    var i := Index(path, MANIFESTS).value;
    assert (path + more)[..i] == path[..i];
  }

  lemma SameURL(upstream: string, image: string, d: string, e: string)
    ensures PrefetchURL(upstream, image, d) == PrefetchURL(upstream, image, e) <==> d == e
  {
    var head := upstream + "/v2/" + image + "/blobs/";
    assert PrefetchURL(upstream, image, d)[|head|..] == d && PrefetchURL(upstream, image, e)[|head|..] == e;
  }

  /** However deep its manifest is nested, a blob's key leads back to the upstream URL its
      prefetch used, for every image but "v2": exactly if the digest reads back. */
  lemma UpstreamRoundTrip(upstream: string, name: string, tag: string, path: seq<string>, digest: string)
    requires name != "v2"
    ensures (BlobUpstreamURL(upstream, BlobKey(NestedKey(TagKey(name, tag), path), digest)) ==
             PrefetchURL(upstream, ImageName(TagKey(name, tag)), digest)) <==> !Contains("/" + digest, BLOBS)
  {
    DigestRoundTrip(NestedKey(TagKey(name, tag), path), digest);
    var more := BlobKeyShape(TagKey(name, tag), path, digest);
    SearchedContains(name, tag);
    UpstreamOfExtension(upstream, name, tag, more);
    SameURL(upstream, ImageName(TagKey(name, tag)), digest, ExtractDigest(TagKey(name, tag) + more));
  }

  /** Written out, for an image whose name is read back and a digest that is: the blob is
      fetched from the image's own repository. */
  lemma UpstreamOfPlainImage(upstream: string, name: string, tag: string, path: seq<string>, digest: string)
    requires !HasPrefix(name + "/", "v2/") && !Contains(name + "/", "/manifests/") && !Contains("/" + digest, "/blobs/")
    ensures BlobUpstreamURL(upstream, BlobKey(NestedKey(TagKey(name, tag), path), digest)) == upstream + "/v2/" + name + "/blobs/" + digest
  {
    assert name == "v2" ==> name + "/" == "v2/";
    ImageNameExactly(name, tag);
    UpstreamRoundTrip(upstream, name, tag, path, digest);
  }

  /** The reference read from such an image's path is its tag. */
  lemma ReferenceRead(name: string, tag: string)
    requires !HasPrefix(name + "/", "v2/") && !Contains(name + "/", MANIFESTS)
    ensures ParseDockerPath(name + "/manifests/" + tag) == (name, tag)
  {
    assert name == "v2" ==> name + "/" == "v2/";
    V2Element(name);
    SearchedShape(name, tag);
    FirstSeparator(name, tag);
    assert TagPath(name, tag)[..|name|] == name && TagPath(name, tag)[|name| + 11..] == tag;
  }

  // ---------------------------------------------------------------- the image "v2"

  /** What is left of a tag's path when "v2/" has been taken off it. */
  function V2Path(tag: string): string {
    "manifests/" + tag
  }

  lemma ImagesDiffer(upstream: string, a: string, b: string, digest: string)
    requires |a| != |b|
    ensures PrefetchURL(upstream, a, digest) != PrefetchURL(upstream, b, digest)
  {
    assert |PrefetchURL(upstream, a, digest)| - |PrefetchURL(upstream, b, digest)| == |a| - |b|;
  }

  lemma AsURL(upstream: string, image: string, digest: string)
    ensures upstream + "/v2/" + (image + (BLOBS + digest)) == PrefetchURL(upstream, image, digest)
  {
  }

  /** The URL read back from a key beneath a tag of the image "v2". */
  lemma URLOfV2(upstream: string, tag: string, more: string)
    ensures var rel := V2Path(tag) + more;
            BlobUpstreamURL(upstream, TagKey("v2", tag) + more) ==
              match Index(rel, MANIFESTS)
              case None => upstream + "/v2/" + rel
              case Some(i) => PrefetchURL(upstream, rel[..i], ExtractDigest(TagKey("v2", tag) + more))
  {
    TrimmedKey("v2", tag, more);
    SearchedExtended("v2", tag, more);
    SearchedShape("v2", tag);
  }

  /** The image the prefetch of "v2" goes to, if its path has no "/manifests/" of its own. */
  lemma V2Image(tag: string)
    requires !Contains(V2Path(tag), MANIFESTS)
    ensures var path := V2Path(tag);
            ImageName(TagKey("v2", tag)) ==
              match Index(path, BLOBS)
              case Some(b) => path[..b]
              case None => (match Index(path, "/tags/") case Some(b) => path[..b] case None => path)
  {
    TrimmedKey("v2", tag, "");
    SearchedShape("v2", tag);
    assert TagKey("v2", tag) + "" == TagKey("v2", tag) && TagPath("v2", tag) + "" == TagPath("v2", tag);
    var path, seps := V2Path(tag), [MANIFESTS, BLOBS, "/tags/"];
    assert seps[1..] == [BLOBS, "/tags/"] && seps[1..][1..] == ["/tags/"];
    assert CutFirst(path, seps) == CutFirst(path, seps[1..]);
    assert Index(path, BLOBS).None? ==> CutFirst(path, seps[1..]) == CutFirst(path, ["/tags/"]);
  }

  /** Over the seam between a path without separator and what follows it, a separator can only
      stand with its last slash on the seam. */
  lemma OverSeam(path: string, more: string, i: nat)
    requires !Contains(path, MANIFESTS) && more != "" && more[0] == '/' && i < |path| && Occurs(path + more, MANIFESTS, i)
    ensures i + 10 == |path| && HasSuffix(path, "/manifests")
  {
    if i + 11 <= |path| {
      OccursExtended(path, more, MANIFESTS, i);
    } else {
      var w := (path + more)[i..i + 11];
      assert w[|path| - i] == (path + more)[|path|] == '/';
      assert forall k :: 0 < k < 10 ==> MANIFESTS[k] != '/';
      assert path[i..] == w[..10] == "/manifests";
    }
  }

  lemma OnSeam(path: string, more: string)
    requires HasSuffix(path, "/manifests") && more != "" && more[0] == '/'
    ensures Occurs(path + more, MANIFESTS, |path| - 10)
  {
    var w := (path + more)[|path| - 10..|path| + 1];
    assert w[..10] == path[|path| - 10..] && w[10] == '/';
    assert w == w[..10] + [w[10]];
  }

  lemma NoManifestsInBlob(digest: string, i: nat)
    ensures Occurs(BLOBS + digest, MANIFESTS, i) ==> i >= 6 && Occurs("/" + digest, MANIFESTS, i - 6)
  {
    var s := BLOBS + digest;
    if Occurs(s, MANIFESTS, i) {
      var w := s[i..i + 11];
      assert w[0] == s[i] && w[1] == s[i + 1];
      assert BLOBS[0] == '/' && BLOBS[1] == 'b' && forall k :: 0 < k < 6 ==> BLOBS[k] != '/';
      assert i >= 6;
      assert s == "/blobs" + ("/" + digest);
      OccursShifted("/blobs", "/" + digest, MANIFESTS, i - 6);
    }
  }

  lemma ManifestsInBlob(digest: string)
    requires Contains("/" + digest, MANIFESTS)
    ensures Contains(BLOBS + digest, MANIFESTS)
  {
    assert BLOBS + digest == "/blobs" + ("/" + digest);
    ContainsShifted("/blobs", "/" + digest, MANIFESTS);
  }

  /** Two different separators do not stand in the same place. */
  lemma OneSeparator(s: string, sep: string, i: nat)
    requires Occurs(s, sep, i) && (sep == BLOBS || sep == "/tags/")
    ensures !Occurs(s, MANIFESTS, i)
  {
    assert s[i + 1] == s[i..i + |sep|][1] == sep[1];
    assert i + 11 <= |s| ==> s[i..i + 11][1] == s[i + 1];
  }

  /** When the URL is read back for the image "v2": if the tag has a "/manifests/" of its own;
      otherwise if it has no other separator, does not end in "/manifests", and neither is the
      blob that of the tag's own manifest with a "/manifests/" in its digest. */
  predicate V2ReadsBack(tag: string, path: seq<string>, digest: string) {
    || Contains(V2Path(tag), MANIFESTS)
    || (!Contains(V2Path(tag), BLOBS) && !Contains(V2Path(tag), "/tags/") && !HasSuffix(V2Path(tag), "/manifests")
        && (path != [] || !Contains("/" + digest, MANIFESTS)))
  }

  /** A tag with another separator: the prefetch goes to what stands before it. */
  lemma URLOfCutV2(upstream: string, tag: string, more: string, digest: string, sep: string, b: nat)
    requires (sep == BLOBS || sep == "/tags/") && Occurs(V2Path(tag), sep, b) && 7 + |digest| <= |more|
    requires ExtractDigest(TagKey("v2", tag) + more) == digest
    ensures BlobUpstreamURL(upstream, TagKey("v2", tag) + more) != PrefetchURL(upstream, V2Path(tag)[..b], digest)
  {
    var path := V2Path(tag);
    var rel, image := path + more, path[..b];
    URLOfV2(upstream, tag, more);
    match Index(rel, MANIFESTS)
    case Some(i) =>
      OccursExtended(path, more, sep, b);
      OneSeparator(rel, sep, b);
      ImagesDiffer(upstream, rel[..i], image, digest);
    case None =>
      assert |upstream + "/v2/" + rel| > |PrefetchURL(upstream, image, digest)|;
  }

  lemma SeparatorOnSeam(path: string, more: string)
    requires !Contains(path, MANIFESTS) && !HasSuffix(path, "/manifests") && HasPrefix(more, MANIFESTS)
    ensures Index(path + more, MANIFESTS) == Some(|path|)
  {
    var rel, n: nat := path + more, |path|;
    assert rel[n..n + 11] == more[..11];
    assert Occurs(rel, MANIFESTS, n) && n <= |rel|;
    var i := Index(rel, MANIFESTS).value;
    assert !(n < i);
    if i < n {
      OverSeam(path, more, i);
    }
  }

  /** A tag without separators, the blob belonging to a nested manifest. */
  lemma URLOfNestedV2(upstream: string, tag: string, more: string)
    requires !Contains(V2Path(tag), MANIFESTS) && !HasSuffix(V2Path(tag), "/manifests") && HasPrefix(more, MANIFESTS)
    ensures BlobUpstreamURL(upstream, TagKey("v2", tag) + more) ==
            PrefetchURL(upstream, V2Path(tag), ExtractDigest(TagKey("v2", tag) + more))
  {
    URLOfV2(upstream, tag, more);
    SeparatorOnSeam(V2Path(tag), more);
    assert (V2Path(tag) + more)[..|V2Path(tag)|] == V2Path(tag);
  }

  /** A tag that ends in "/manifests": its end and the next slash are taken for the separator. */
  lemma URLOfEndingV2(upstream: string, tag: string, more: string, digest: string)
    requires HasSuffix(V2Path(tag), "/manifests") && more != "" && more[0] == '/'
    requires ExtractDigest(TagKey("v2", tag) + more) == digest
    ensures BlobUpstreamURL(upstream, TagKey("v2", tag) + more) != PrefetchURL(upstream, V2Path(tag), digest)
  {
    var path := V2Path(tag);
    var rel, n: nat := path + more, |path| - 10;
    URLOfV2(upstream, tag, more);
    OnSeam(path, more);
    assert Occurs(rel, MANIFESTS, n) && n <= |rel|;
    var i := Index(rel, MANIFESTS).value;
    assert !(n < i);
    ImagesDiffer(upstream, rel[..i], path, digest);
  }

  /** A tag without separators, and a blob of its own manifest. */
  lemma URLOfPlainV2(upstream: string, tag: string, digest: string)
    requires !Contains(V2Path(tag), MANIFESTS) && !HasSuffix(V2Path(tag), "/manifests")
    requires ExtractDigest(TagKey("v2", tag) + (BLOBS + digest)) == digest
    ensures (BlobUpstreamURL(upstream, TagKey("v2", tag) + (BLOBS + digest)) == PrefetchURL(upstream, V2Path(tag), digest)) <==>
            !Contains("/" + digest, MANIFESTS)
  {
    var path := V2Path(tag);
    var more := BLOBS + digest;
    var rel := path + more;
    URLOfV2(upstream, tag, more);
    match Index(rel, MANIFESTS)
    case Some(i) =>
      BeyondBlobs(path, digest, i);
      ImagesDiffer(upstream, rel[..i], path, digest);
    case None =>
      AsURL(upstream, path, digest);
      if Contains("/" + digest, MANIFESTS) {
        ManifestsInBlob(digest);
        ContainsShifted(path, more, MANIFESTS);
      }
  }

  lemma BeyondBlobs(path: string, digest: string, i: nat)
    requires !Contains(path, MANIFESTS) && !HasSuffix(path, "/manifests") && Occurs(path + (BLOBS + digest), MANIFESTS, i)
    ensures |path| < i && Contains("/" + digest, MANIFESTS)
  {
    if i < |path| {
      OverSeam(path, BLOBS + digest, i);
    } else {
      OccursShifted(path, BLOBS + digest, MANIFESTS, i - |path|);
      NoManifestsInBlob(digest, i - |path|);
      assert i - |path| - 6 <= |"/" + digest|;
    }
  }

  /** The image "v2", for every tag and nesting and every digest that reads back. */
  lemma UpstreamOfV2(upstream: string, tag: string, path: seq<string>, digest: string)
    requires !Contains("/" + digest, BLOBS)
    ensures (BlobUpstreamURL(upstream, BlobKey(NestedKey(TagKey("v2", tag), path), digest)) ==
             PrefetchURL(upstream, ImageName(TagKey("v2", tag)), digest)) <==> V2ReadsBack(tag, path, digest)
  {
    var more := BlobKeyShape(TagKey("v2", tag), path, digest);
    DigestRoundTrip(NestedKey(TagKey("v2", tag), path), digest);
    SearchedShape("v2", tag);
    if Contains(V2Path(tag), MANIFESTS) {
      UpstreamOfExtension(upstream, "v2", tag, more);
    } else {
      V2Image(tag);
      if Contains(V2Path(tag), BLOBS) {
        URLOfCutV2(upstream, tag, more, digest, BLOBS, Index(V2Path(tag), BLOBS).value);
      } else if Contains(V2Path(tag), "/tags/") {
        URLOfCutV2(upstream, tag, more, digest, "/tags/", Index(V2Path(tag), "/tags/").value);
      } else if HasSuffix(V2Path(tag), "/manifests") {
        URLOfEndingV2(upstream, tag, more, digest);
      } else if path != [] {
        URLOfNestedV2(upstream, tag, more);
      } else {
        URLOfPlainV2(upstream, tag, digest);
      }
    }
  }

  /** Such a blob: the tag "manifests" of the image "v2". */
  lemma TagManifestsOfV2(path: seq<string>, digest: string)
    ensures !V2ReadsBack("manifests", path, digest)
  {
    var t := V2Path("manifests");
    assert t == "manifests/manifests";
    assert t[9..] == "/manifests" && |t| == 19;
    forall i: nat | i <= |t| ensures !Occurs(t, MANIFESTS, i) {
      if i + 11 <= |t| {
        assert t[i..i + 11][0] == t[i];
        assert forall k :: 0 <= k < 9 ==> t[k] != '/';
      }
    }
  }

  /** What lies beneath a tag key by a slash is its child, as a path and for the cascade. */
  lemma BeneathTag(tagKey: string, more: string)
    requires more != "" && more[0] == '/'
    ensures HasPrefix(tagKey + more, tagKey + "/") && Kin(tagKey + more, tagKey)
  {
    assert more == "/" + more[1..];
    assert tagKey + more == tagKey + "/" + more[1..];
    KinOfExtension(tagKey, more[1..]);
  }

  /** A key beneath a tag key is always subject to quarantine on its own. */
  lemma SelfBeneathTag(name: string, tag: string, more: string)
    ensures QuarantineDecision(TagKey(name, tag) + more) == Self
  {
    TrimmedKey(name, tag, more);
    ContainsMiddle(name, MANIFESTS, tag + more);
    assert name + MANIFESTS + (tag + more) == TagPath(name, tag) + more;
  }

  /** Every prefetched blob is quarantined on its own key, hidden as a child in the admin
      view, and strictly beneath the tag's key both as a path and for the cascade. */
  lemma BlobKeyIsChild(name: string, tag: string, path: seq<string>, digest: string)
    ensures var tagKey, blobKey := TagKey(name, tag), BlobKey(NestedKey(TagKey(name, tag), path), digest);
            && QuarantineDecision(blobKey) == Self && IsDockerChildKey(blobKey)
            && HasPrefix(blobKey, tagKey + "/") && Kin(blobKey, tagKey)
  {
    var more := BlobKeyShape(TagKey(name, tag), path, digest);
    ContainsMiddle(NestedKey(TagKey(name, tag), path), BLOBS, digest);
    SelfBeneathTag(name, tag, more);
    BeneathTag(TagKey(name, tag), more);
  }

  /** So is every nested manifest. */
  lemma SubKeyIsChild(name: string, tag: string, path: seq<string>, digest: string)
    ensures var tagKey, subKey := TagKey(name, tag), SubKey(NestedKey(TagKey(name, tag), path), digest);
            && QuarantineDecision(subKey) == Self && IsDockerChildKey(subKey)
            && HasPrefix(subKey, tagKey + "/") && Kin(subKey, tagKey)
  {
    var more := SubKeyShape(TagKey(name, tag), path, digest);
    SelfBeneathTag(name, tag, more);
    BeneathTag(TagKey(name, tag), more);
    NestedIsChild(name, tag, more);
  }

  lemma NestedIsChild(name: string, tag: string, more: string)
    requires Contains(more, MANIFESTS)
    ensures IsDockerChildKey(TagKey(name, tag) + more)
  {
    ContainsMiddle("docker/" + name, MANIFESTS, tag);
    assert "docker/" + name + MANIFESTS + tag == TagKey(name, tag);
    CountTwo(TagKey(name, tag), more, MANIFESTS);
  }

  /** What the driver quarantines: exactly the paths with a "/manifests/" in them. */
  lemma SelfExactly(relPath: string)
    ensures QuarantineDecision("docker/" + relPath) == Self <==> Contains(relPath, "/manifests/")
  {
    assert ("docker/" + relPath)[7..] == relPath;
  }

  lemma CountRest(s: string, sub: string, from: nat)
    requires sub != "" && from <= |s|
    ensures CountFrom(s, sub, from) > 0 <==> Contains(s[from..], sub)
  {
    assert s == s[..from] + s[from..];
    if Contains(s[from..], sub) {
      OccursShifted(s[..from], s[from..], sub, Index(s[from..], sub).value);
      CountPositive(s, sub, from, from + Index(s[from..], sub).value);
    }
    if IndexFrom(s, sub, from).Some? {
      var j := IndexFrom(s, sub, from).value;
      OccursShifted(s[..from], s[from..], sub, j - from);
      assert j - from <= |s[from..]|;
    }
  }

  /** A tag's own key is hidden as a child exactly if it has a "/blobs/" in it, or its tag a
      "/manifests/". */
  lemma TagIsChildExactly(name: string, tag: string)
    requires !Contains("docker/" + name + "/", MANIFESTS)
    ensures IsDockerChildKey(TagKey(name, tag)) <==> Contains(TagKey(name, tag), "/blobs/") || Contains(tag, "/manifests/")
  {
    var key, head := TagKey(name, tag), "docker/" + name;
    assert key == TagPath(head, tag);
    FirstSeparator(head, tag);
    assert key[|head| + 11..] == tag;
    CountRest(key, MANIFESTS, |head| + 11);
  }

  /** One occurrence on either side of a cut makes at least two. */
  lemma CountTwo(s: string, t: string, sub: string)
    requires sub != "" && Contains(s, sub) && Contains(t, sub)
    ensures Count(s + t, sub) > 1
  {
    IndexExtended(s, t, sub);
    OccursShifted(s, t, sub, Index(t, sub).value);
    CountTwoAt(s + t, sub, Index(s, sub).value, |s| + Index(t, sub).value);
  }

  lemma CountTwoAt(s: string, sub: string, i: nat, j: nat)
    requires sub != "" && Index(s, sub) == Some(i) && i + |sub| <= j && Occurs(s, sub, j)
    ensures Count(s, sub) > 1
  {
    CountPositive(s, sub, i + |sub|, j);
  }

  lemma CountPositive(s: string, sub: string, from: nat, j: nat)
    requires sub != "" && from <= j && Occurs(s, sub, j)
    ensures CountFrom(s, sub, from) > 0
  {
  }
}
