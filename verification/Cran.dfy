/** The CRAN PACKAGES index, a file of stanzas in the control-file format of section 5.1 of
    the Debian Policy Manual, read line by line into a map of checksums. */
module Cran {
  import opened Wrappers
  import opened Strings

  datatype Checksums = Checksums(md5: string, sha256: string)

  type Index = map<string, Checksums>

  /** The loop-carried variables: the fields of the stanza being read. */
  datatype Stanza = Stanza(name: string, version: string, md5: string, sha256: string)

  const NO_STANZA := Stanza("", "", "", "")

  const PACKAGE := "Package: "
  const VERSION := "Version: "
  const MD5 := "MD5sum: "
  const SHA256 := "SHA256: "

  function PairKey(name: string, version: string): string {
    name + "_" + version
  }

  /** Files a stanza under its name and version, and under its name alone. */
  function Flush(index: Index, s: Stanza): Index {
    if s.name != "" && s.version != ""
    then index[PairKey(s.name, s.version) := Checksums(s.md5, s.sha256)][s.name := Checksums(s.md5, s.sha256)]
    else index
  }

  function SetField(s: Stanza, line: string): Stanza {
    if HasPrefix(line, PACKAGE) then s.(name := TrimPrefix(line, PACKAGE))
    else if HasPrefix(line, VERSION) then s.(version := TrimPrefix(line, VERSION))
    else if HasPrefix(line, MD5) then s.(md5 := TrimPrefix(line, MD5))
    else if HasPrefix(line, SHA256) then s.(sha256 := TrimPrefix(line, SHA256))
    else s
  }

  /** The index after reading `lines` with the stanza `s` begun, and closing the last stanza. */
  function LoadFrom(index: Index, s: Stanza, lines: seq<string>): Index
    decreases |lines|
  {
    if lines == [] then Flush(index, s)
    else if lines[0] == "" then LoadFrom(Flush(index, s), NO_STANZA, lines[1..])
    else LoadFrom(index, SetField(s, lines[0]), lines[1..])
  }

  function Load(index: Index, lines: seq<string>): Index {
    LoadFrom(index, NO_STANZA, lines)
  }

  class PackagesIndex {
    var entries: Index

    constructor ()
      ensures entries == map[]
    {
      entries := map[];
    }

    /** The scanning loop. */
    method LoadLines(lines: seq<string>)
      modifies this
      ensures entries == Load(old(entries), lines)
    {
      var s := NO_STANZA;
      assert lines[0..] == lines;
      for i := 0 to |lines|
        invariant LoadFrom(entries, s, lines[i..]) == Load(old(entries), lines)
      {
        var line := lines[i];
        assert lines[i..][0] == line && lines[i..][1..] == lines[i + 1..];
        if HasPrefix(line, PACKAGE) {
          s := s.(name := TrimPrefix(line, PACKAGE));
        } else if HasPrefix(line, VERSION) {
          s := s.(version := TrimPrefix(line, VERSION));
        } else if HasPrefix(line, MD5) {
          s := s.(md5 := TrimPrefix(line, MD5));
        } else if HasPrefix(line, SHA256) {
          s := s.(sha256 := TrimPrefix(line, SHA256));
        } else if line == "" {
          if s.name != "" && s.version != "" {
            entries := entries[PairKey(s.name, s.version) := Checksums(s.md5, s.sha256)];
            entries := entries[s.name := Checksums(s.md5, s.sha256)];
          }
          s := NO_STANZA;
        }
      }
      if s.name != "" && s.version != "" {
        entries := entries[PairKey(s.name, s.version) := Checksums(s.md5, s.sha256)];
        entries := entries[s.name := Checksums(s.md5, s.sha256)];
      }
    }
  }

  /** A blank line is as good as the end of the file: loading two files at once, a blank
      line between them, is loading one after the other. */
  lemma LoadInParts(index: Index, a: seq<string>, b: seq<string>)
    ensures Load(index, a + [""] + b) == Load(Load(index, a), b)
  {
    LoadInPartsFrom(index, NO_STANZA, a, b);
  }

  lemma {:induction false} LoadInPartsFrom(index: Index, s: Stanza, a: seq<string>, b: seq<string>)
    ensures LoadFrom(index, s, a + [""] + b) == LoadFrom(LoadFrom(index, s, a), NO_STANZA, b)
    decreases |a|
  {
    var all := a + [""] + b;
    if a == [] {
      assert all[1..] == b;
    } else {
      assert all[0] == a[0] && all[1..] == a[1..] + [""] + b;
      if a[0] == "" {
        LoadInPartsFrom(Flush(index, s), NO_STANZA, a[1..], b);
      } else {
        LoadInPartsFrom(index, SetField(s, a[0]), a[1..], b);
      }
    }
  }

  // ---------------------------------------------------------------- stanzas as blocks

  /** The blocks of lines between blank lines; there is always at least one. */
  function Blocks(lines: seq<string>): (r: seq<seq<string>>)
    ensures r != []
  {
    if lines == [] then [[]]
    else
      var rest := Blocks(lines[1..]);
      if lines[0] == "" then [[]] + rest else [[lines[0]] + rest[0]] + rest[1..]
  }

  /** The value of the last line of a block that carries this field. */
  function Field(block: seq<string>, prefix: string): string {
    if block == [] then ""
    else if HasPrefix(block[|block| - 1], prefix) then TrimPrefix(block[|block| - 1], prefix)
    else Field(block[..|block| - 1], prefix)
  }

  function StanzaOf(block: seq<string>): Stanza {
    Stanza(Field(block, PACKAGE), Field(block, VERSION), Field(block, MD5), Field(block, SHA256))
  }

  function SetFields(s: Stanza, block: seq<string>): Stanza
    decreases |block|
  {
    if block == [] then s else SetFields(SetField(s, block[0]), block[1..])
  }

  lemma {:induction false} SetFieldsLast(s: Stanza, block: seq<string>, line: string)
    ensures SetFields(s, block + [line]) == SetField(SetFields(s, block), line)
    decreases |block|
  {
    if block == [] {
      assert ([line])[1..] == [];
      assert block + [line] == [line];
    } else {
      assert (block + [line])[1..] == block[1..] + [line];
      SetFieldsLast(SetField(s, block[0]), block[1..], line);
    }
  }

  lemma FirstChar(line: string, prefix: string)
    requires HasPrefix(line, prefix) && prefix != ""
    ensures line[0] == prefix[0]
  {
  }

  predicate IsField(prefix: string) {
    prefix == PACKAGE || prefix == VERSION || prefix == MD5 || prefix == SHA256
  }

  /** The four prefixes exclude one another. */
  lemma OneField(line: string, p: string, q: string)
    requires IsField(p) && IsField(q) && p != q && HasPrefix(line, p)
    ensures !HasPrefix(line, q)
  {
    FirstChar(line, p);
    if HasPrefix(line, q) {
      FirstChar(line, q);
    }
  }

  lemma FieldLast(block: seq<string>, line: string, prefix: string)
    ensures Field(block + [line], prefix) == if HasPrefix(line, prefix) then TrimPrefix(line, prefix) else Field(block, prefix)
  {
    assert (block + [line])[..|block|] == block;
  }

  lemma SetFieldIs(s: Stanza, line: string)
    ensures var r := SetField(s, line);
            && r.name == (if HasPrefix(line, PACKAGE) then TrimPrefix(line, PACKAGE) else s.name)
            && r.version == (if HasPrefix(line, VERSION) then TrimPrefix(line, VERSION) else s.version)
            && r.md5 == (if HasPrefix(line, MD5) then TrimPrefix(line, MD5) else s.md5)
            && r.sha256 == (if HasPrefix(line, SHA256) then TrimPrefix(line, SHA256) else s.sha256)
  {
    forall p, q | IsField(p) && IsField(q) && p != q && HasPrefix(line, p) ensures !HasPrefix(line, q) {
      OneField(line, p, q);
    }
  }

  /** Reading a block line by line collects its fields. */
  lemma {:induction false} FieldsCollected(block: seq<string>)
    ensures SetFields(NO_STANZA, block) == StanzaOf(block)
    decreases |block|
  {
    if block != [] {
      var front, line := block[..|block| - 1], block[|block| - 1];
      FieldsCollected(front);
      SetFieldsLast(NO_STANZA, front, line);
      assert front + [line] == block;
      SetFieldIs(StanzaOf(front), line);
      FieldLast(front, line, PACKAGE);
      FieldLast(front, line, VERSION);
      FieldLast(front, line, MD5);
      FieldLast(front, line, SHA256);
    }
  }

  /** Files the blocks one after the other. */
  function FlushAll(index: Index, blocks: seq<seq<string>>): Index
    decreases |blocks|
  {
    if blocks == [] then index else FlushAll(Flush(index, StanzaOf(blocks[0])), blocks[1..])
  }

  lemma {:induction false} LoadIsFlushFrom(index: Index, s: Stanza, lines: seq<string>)
    ensures LoadFrom(index, s, lines) == FlushAll(Flush(index, SetFields(s, Blocks(lines)[0])), Blocks(lines)[1..])
    decreases |lines|
  {
    if lines != [] {
      var rest := Blocks(lines[1..]);
      if lines[0] == "" {
        LoadIsFlushFrom(Flush(index, s), NO_STANZA, lines[1..]);
        FieldsCollected(rest[0]);
        assert Blocks(lines)[1..] == rest;
      } else {
        LoadIsFlushFrom(index, SetField(s, lines[0]), lines[1..]);
        assert Blocks(lines)[1..] == rest[1..];
        assert ([lines[0]] + rest[0])[1..] == rest[0];
      }
    }
  }

  /** Loading is filing the stanzas of the blocks in order. */
  lemma LoadIsFlush(index: Index, lines: seq<string>)
    ensures Load(index, lines) == FlushAll(index, Blocks(lines))
  {
    LoadIsFlushFrom(index, NO_STANZA, lines);
    FieldsCollected(Blocks(lines)[0]);
  }

  /** One stanza as it stands in a file: other fields are skipped, a field given twice counts as
      given last, and the checksums are filed under name and version and under the name. */
  lemma StanzaRead(index: Index, name: string, version: string, old_: string, md5: string, sha256: string)
    requires name != "" && version != ""
    ensures Load(index, ["Package: " + name, "Depends: R", "Version: " + version, "MD5sum: " + old_, "MD5sum: " + md5, "SHA256: " + sha256]) ==
            index[name + "_" + version := Checksums(md5, sha256)][name := Checksums(md5, sha256)]
  {
    var lines := ["Package: " + name, "Depends: R", "Version: " + version, "MD5sum: " + old_, "MD5sum: " + md5, "SHA256: " + sha256];
    var s := NO_STANZA;
    FieldLine(s, "Package: ", name);
    OtherLine(s.(name := name), "Depends: R");
    FieldLine(s.(name := name), "Version: ", version);
    FieldLine(Stanza(name, version, "", ""), "MD5sum: ", old_);
    FieldLine(Stanza(name, version, old_, ""), "MD5sum: ", md5);
    FieldLine(Stanza(name, version, md5, ""), "SHA256: ", sha256);
    assert SetFields(s, lines) == Stanza(name, version, md5, sha256) by {
      SetFieldsFirst(s, lines);
      SetFieldsFirst(s.(name := name), lines[1..]);
      SetFieldsFirst(s.(name := name), lines[2..]);
      SetFieldsFirst(Stanza(name, version, "", ""), lines[3..]);
      SetFieldsFirst(Stanza(name, version, old_, ""), lines[4..]);
      SetFieldsFirst(Stanza(name, version, md5, ""), lines[5..]);
    }
    NoBlank(lines);
    LoadIsFlushFrom(index, s, lines);
  }

  lemma OtherLine(s: Stanza, line: string)
    requires line != "" && line[0] !in {'P', 'V', 'M', 'S'}
    ensures SetField(s, line) == s
  {
    forall p | IsField(p) ensures !HasPrefix(line, p) {
      if HasPrefix(line, p) {
        FirstChar(line, p);
      }
    }
  }

  lemma FieldLine(s: Stanza, prefix: string, value: string)
    ensures prefix == "Package: " ==> SetField(s, prefix + value) == s.(name := value)
    ensures prefix == "Version: " ==> SetField(s, prefix + value) == s.(version := value)
    ensures prefix == "MD5sum: " ==> SetField(s, prefix + value) == s.(md5 := value)
    ensures prefix == "SHA256: " ==> SetField(s, prefix + value) == s.(sha256 := value)
  {
    var line := prefix + value;
    assert line[|prefix|..] == value;
    assert prefix != "" ==> line[0] == prefix[0];
  }

  lemma SetFieldsFirst(s: Stanza, block: seq<string>)
    ensures SetFields(s, block) == if block == [] then s else SetFields(SetField(s, block[0]), block[1..])
  {
  }

  lemma {:induction false} NoBlank(lines: seq<string>)
    requires "" !in lines
    ensures Blocks(lines) == [lines]
  {
    if lines != [] {
      NoBlank(lines[1..]);
      assert [lines[0]] + lines[1..] == lines;
    }
  }

  /** The block names a package and a version, and so is filed. */
  predicate Files(block: seq<string>, name: string, version: string) {
    Field(block, PACKAGE) == name && Field(block, VERSION) == version && name != "" && version != ""
  }

  /** What a file adds to the index: under every key that a complete stanza of it has, and under
      no other; an incomplete stanza adds nothing. */
  lemma {:induction false} IndexedExactly(index: Index, blocks: seq<seq<string>>, key: string)
    ensures key in FlushAll(index, blocks) <==>
      key in index || exists b, n, v :: b in blocks && Files(b, n, v) && (key == n || key == n + "_" + v)
    decreases |blocks|
  {
    if blocks != [] {
      var s := StanzaOf(blocks[0]);
      IndexedExactly(Flush(index, s), blocks[1..], key);
      FlushedKeys(index, s, key);
      if s.name != "" && s.version != "" && (key == s.name || key == s.name + "_" + s.version) {
        assert Files(blocks[0], s.name, s.version);
      }
    }
  }

  lemma FlushedKeys(index: Index, s: Stanza, key: string)
    ensures key in Flush(index, s) <==> key in index || (s.name != "" && s.version != "" && (key == s.name || key == s.name + "_" + s.version))
  {
  }

  // ---------------------------------------------------------------- lookups

  function ChecksumsFor(index: Index, name: string, version: string): Checksums {
    var key := if version == "" then name else PairKey(name, version);
    if key in index then index[key] else Checksums("", "")
  }

  /** The checksums of the last block for this name and version. */
  function LastFor(blocks: seq<seq<string>>, name: string, version: string): Option<Checksums> {
    if blocks == [] then None
    else
      var later := LastFor(blocks[1..], name, version);
      var s := StanzaOf(blocks[0]);
      if later.Some? then later
      else if s.name == name && s.version == version then Some(Checksums(s.md5, s.sha256))
      else None
  }

  /** No package in the file has an underscore in its name. */
  predicate PlainNames(blocks: seq<seq<string>>) {
    forall b :: b in blocks ==> '_' !in Field(b, PACKAGE)
  }

  lemma PairKeyInjective(n: string, v: string, m: string, w: string)
    requires '_' !in n && '_' !in m && PairKey(n, v) == PairKey(m, w)
    ensures n == m && v == w
  {
    var k := PairKey(n, v);
    assert k[|n|] == '_' && k[|m|] == '_';
    assert forall i :: 0 <= i < |n| ==> k[i] == n[i] && n[i] in n;
    assert forall i :: 0 <= i < |m| ==> k[i] == m[i] && m[i] in m;
    assert n == k[..|n|] && m == k[..|m|];
    assert v == k[|n| + 1..] && w == k[|m| + 1..];
  }

  lemma PairKeyIsNoName(n: string, v: string, m: string)
    requires '_' !in m
    ensures PairKey(n, v) != m
  {
    assert PairKey(n, v)[|n|] == '_';
  }

  lemma {:induction false} FiledUnderPair(index: Index, blocks: seq<seq<string>>, name: string, version: string)
    requires PlainNames(blocks) && '_' !in name && name != "" && version != ""
    ensures var r, key := FlushAll(index, blocks), PairKey(name, version);
            match LastFor(blocks, name, version)
            case Some(c) => key in r && r[key] == c
            case None => (key in r <==> key in index) && (key in index ==> r[key] == index[key])
    decreases |blocks|
  {
    if blocks != [] {
      var s := StanzaOf(blocks[0]);
      assert blocks[0] in blocks;
      FiledUnderPair(Flush(index, s), blocks[1..], name, version);
      PairKeyIsNoName(name, version, s.name);
      if PairKey(s.name, s.version) == PairKey(name, version) {
        PairKeyInjective(s.name, s.version, name, version);
      }
    }
  }

  /** The checksums of the last block for this name, whatever its version. */
  function LastNamed(blocks: seq<seq<string>>, name: string): Option<Checksums> {
    if blocks == [] then None
    else
      var later := LastNamed(blocks[1..], name);
      var s := StanzaOf(blocks[0]);
      if later.Some? then later
      else if s.name == name && s.version != "" then Some(Checksums(s.md5, s.sha256))
      else None
  }

  /** Under a name alone stand the checksums of the last stanza for it in the file, which
      need not have the latest version. */
  lemma {:induction false} FiledUnderName(index: Index, blocks: seq<seq<string>>, name: string)
    requires '_' !in name && name != ""
    ensures ChecksumsFor(FlushAll(index, blocks), name, "") ==
              match LastNamed(blocks, name)
              case Some(c) => c
              case None => ChecksumsFor(index, name, "")
    decreases |blocks|
  {
    if blocks != [] {
      var s := StanzaOf(blocks[0]);
      FiledUnderName(Flush(index, s), blocks[1..], name);
      PairKeyIsNoName(s.name, s.version, name);
    }
  }

  /** What follows the last slash. */
  function FileName(path: string): string {
    match LastIndex(path, "/")
    case Some(i) => path[i + 1..]
    case None => path
  }

  function CutExt(file: string, exts: seq<string>): Option<string> {
    if exts == [] then None
    else if HasSuffix(file, exts[0]) then Some(file[..|file| - |exts[0]|])
    else CutExt(file, exts[1..])
  }

  function PackageInfo(relPath: string): (string, string) {
    match CutExt(FileName(relPath), EXTENSIONS)
    case None => ("", "")
    case Some(base) =>
      match LastIndex(base, "_")
      case None => (base, "")
      case Some(i) => if i > 0 then (base[..i], base[i + 1..]) else (base, "")
  }

  lemma CharAt(s: string, c: char, i: nat)
    ensures Occurs(s, [c], i) <==> i < |s| && s[i] == c
  {
    if i < |s| {
      assert s[i..i + 1] == [s[i]];
    }
  }

  /** The last separator stands where the tail without it begins. */
  lemma LastSeparator(head: string, c: char, tail: string)
    requires c !in tail
    ensures LastIndex(head + [c] + tail, [c]) == Some(|head|)
  {
    var s := head + [c] + tail;
    CharAt(s, c, |head|);
    forall j: nat | |head| < j ensures !Occurs(s, [c], j) {
      CharAt(s, c, j);
      assert j < |s| ==> s[j] == tail[j - |head| - 1];
    }
  }

  const EXTENSIONS := [".tar.gz", ".tgz", ".zip"]

  /** Two suffixes of one file agree, counted from the end. */
  lemma SuffixDiffers(base: string, ext: string, other: string, k: nat)
    requires 0 < k <= |ext| && k <= |other| && ext[|ext| - k] != other[|other| - k]
    ensures !HasSuffix(base + ext, other)
  {
    var file := base + ext;
    assert |other| <= |file| ==> file[|file| - |other|..][|other| - k] == file[|file| - k];
  }

  lemma SuffixOf(base: string, ext: string)
    ensures HasSuffix(base + ext, ext) && (base + ext)[..|base|] == base
  {
  }

  lemma ExtCut(base: string, ext: string)
    requires ext in [".tar.gz", ".tgz", ".zip"]
    ensures CutExt(base + ext, EXTENSIONS) == Some(base)
  {
    var file, tgz := base + ext, EXTENSIONS[1..];
    SuffixOf(base, ext);
    assert tgz == [".tgz", ".zip"] && tgz[1..] == [".zip"];
    if ext != ".tar.gz" {
      SuffixDiffers(base, ext, ".tar.gz", 3);
      assert CutExt(file, EXTENSIONS) == CutExt(file, tgz);
      if ext != ".tgz" {
        SuffixDiffers(base, ext, ".tgz", 1);
        assert CutExt(file, tgz) == CutExt(file, [".zip"]);
      }
    }
  }

  /** Nothing, or directories up to a slash. */
  predicate IsDir(dir: string) {
    dir == "" || dir[|dir| - 1] == '/'
  }

  lemma FileNameOf(dir: string, file: string)
    requires IsDir(dir) && '/' !in file
    ensures FileName(dir + file) == file
  {
    if dir == "" {
      assert dir + file == file;
      NoSeparator(file, '/');
    } else {
      var front := dir[..|dir| - 1];
      assert dir + file == front + "/" + file;
      LastSeparator(front, '/', file);
      assert (dir + file)[|dir|..] == file;
    }
  }

  lemma NoSeparator(s: string, c: char)
    requires c !in s
    ensures LastIndex(s, [c]).None?
  {
    forall i: nat | i <= |s| ensures !Occurs(s, [c], i) {
      CharAt(s, c, i);
    }
  }

  lemma PairSplit(name: string, version: string)
    requires '_' !in version
    ensures var base := PairKey(name, version);
            LastIndex(base, "_") == Some(|name|) && base[..|name|] == name && base[|name| + 1..] == version
  {
    LastSeparator(name, '_', version);
  }

  /** Name and version are read back from the file name. */
  lemma InfoRoundTrip(dir: string, name: string, version: string, ext: string)
    requires IsDir(dir) && ext in [".tar.gz", ".tgz", ".zip"] && name != "" && '_' !in version && '/' !in name && '/' !in version
    ensures PackageInfo(dir + (PairKey(name, version) + ext)) == (name, version)
  {
    FileNameOf(dir, PairKey(name, version) + ext);
    ExtCut(PairKey(name, version), ext);
    PairSplit(name, version);
  }

  lemma OtherExt(file: string)
    requires forall e :: e in [".tar.gz", ".tgz", ".zip"] ==> !HasSuffix(file, e)
    ensures CutExt(file, EXTENSIONS) == None
  {
    assert EXTENSIONS[1..] == [".tgz", ".zip"] && [".tgz", ".zip"][1..] == [".zip"] && [".zip"][1..] == [];
    assert CutExt(file, EXTENSIONS) == CutExt(file, [".tgz", ".zip"]);
    assert CutExt(file, [".tgz", ".zip"]) == CutExt(file, [".zip"]);
  }

  /** A package file without an underscore past its first character has no version, and a file
      with another extension no name. */
  lemma InfoOfOthers(dir: string, base: string, ext: string)
    requires IsDir(dir) && '/' !in base && '/' !in ext
    ensures ext in [".tar.gz", ".tgz", ".zip"] && '_' !in base ==> PackageInfo(dir + (base + ext)) == (base, "")
    ensures ext in [".tar.gz", ".tgz", ".zip"] && base != "" && base[0] == '_' && '_' !in base[1..] ==> PackageInfo(dir + (base + ext)) == (base, "")
    ensures (forall e :: e in [".tar.gz", ".tgz", ".zip"] ==> !HasSuffix(base + ext, e)) ==> PackageInfo(dir + (base + ext)) == ("", "")
  {
    FileNameOf(dir, base + ext);
    if forall e :: e in [".tar.gz", ".tgz", ".zip"] ==> !HasSuffix(base + ext, e) {
      OtherExt(base + ext);
    }
    if ext in [".tar.gz", ".tgz", ".zip"] {
      ExtCut(base, ext);
      if '_' !in base {
        NoSeparator(base, '_');
      } else if base[0] == '_' && '_' !in base[1..] {
        LastSeparator("", '_', base[1..]);
        assert "" + ['_'] + base[1..] == base;
      }
    }
  }

  /** The checksums found for a package file are those of the last stanza for its name and
      version, and none if there is no such stanza. */
  lemma ChecksumsOfLastStanza(lines: seq<string>, dir: string, name: string, version: string, ext: string)
    requires PlainNames(Blocks(lines))
    requires IsDir(dir) && ext in [".tar.gz", ".tgz", ".zip"] && name != "" && version != "" && '_' !in name && '_' !in version && '/' !in name && '/' !in version
    ensures var info := PackageInfo(dir + (PairKey(name, version) + ext));
            ChecksumsFor(Load(map[], lines), info.0, info.1) ==
              match LastFor(Blocks(lines), name, version)
              case Some(c) => c
              case None => Checksums("", "")
  {
    InfoRoundTrip(dir, name, version, ext);
    LoadIsFlush(map[], lines);
    FiledUnderPair(map[], Blocks(lines), name, version);
  }
}
