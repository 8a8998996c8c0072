/** The PyPI driver: wheel selection, dependency names, and the recursive prefetch as a
    pool of goroutines. */
module PyPI {
  import opened Wrappers
  import opened Strings
  import SqlLike

  // ---------------------------------------------------------------- wheel selection

  function Lower(c: char): char {
    if 'A' <= c <= 'Z' then (c as int + 32) as char else c
  }

  function ToLower(s: string): (r: string)
    ensures |r| == |s|
    ensures forall i :: 0 <= i < |s| ==> r[i] == Lower(s[i])
  {
    seq(|s|, i requires 0 <= i < |s| => Lower(s[i]))
  }

  function WheelScore(file: string): nat {
    var f := ToLower(file);
    if Contains(f, "py3-none-any") || Contains(f, "py2.py3-none-any") then 100
    else if Contains(f, "none-any") then 80
    else if Contains(f, "cp3") then 60
    else 10
  }

  predicate IsWheel(file: string) {
    HasSuffix(file, ".whl")
  }

  /** `files[i]` is a wheel no other one beats, and none before it equals. */
  ghost predicate IsBestAt(files: seq<string>, i: nat) {
    && i < |files| && IsWheel(files[i])
    && (forall j :: 0 <= j < |files| && IsWheel(files[j]) ==> WheelScore(files[j]) <= WheelScore(files[i]))
    && (forall j :: 0 <= j < i && IsWheel(files[j]) ==> WheelScore(files[j]) < WheelScore(files[i]))
  }

  /** The file name contains the text, in lower case. */
  predicate Mentions(file: string, text: string) {
    Contains(ToLower(file), text)
  }

  /** What is preferred: universal wheels before other pure ones, these before other wheels for
      CPython 3, these before all others; and of equals the one listed first. */
  lemma BestIsFirstOfItsKind(files: seq<string>, i: nat, j: nat)
    requires IsBestAt(files, i) && j < |files| && HasSuffix(files[j], ".whl")
    ensures Mentions(files[j], "py3-none-any") ==> Mentions(files[i], "py3-none-any")
    ensures Mentions(files[j], "none-any") ==> Mentions(files[i], "none-any")
    ensures Mentions(files[j], "cp3") ==> Mentions(files[i], "cp3") || Mentions(files[i], "none-any")
    ensures j < i ==>
      || (Mentions(files[i], "py3-none-any") && !Mentions(files[j], "py3-none-any"))
      || (Mentions(files[i], "none-any") && !Mentions(files[j], "none-any"))
      || (Mentions(files[i], "cp3") && !Mentions(files[j], "cp3") && !Mentions(files[j], "none-any"))
  {
    UniversalIsPure(ToLower(files[i]));
    UniversalIsPure(ToLower(files[j]));
  }

  lemma UniversalIsPure(f: string)
    ensures Contains(f, "py2.py3-none-any") ==> Contains(f, "py3-none-any")
    ensures Contains(f, "py3-none-any") ==> Contains(f, "none-any")
  {
    if Contains(f, "py2.py3-none-any") {
      var k := Index(f, "py2.py3-none-any").value;
      assert f[k + 4..k + 16] == f[k..k + 16][4..] == "py3-none-any";
      assert Occurs(f, "py3-none-any", k + 4);
    }
    if Contains(f, "py3-none-any") {
      var k := Index(f, "py3-none-any").value;
      assert f[k + 4..k + 12] == f[k..k + 12][4..] == "none-any";
      assert Occurs(f, "none-any", k + 4);
    }
  }

  /** The case of ASCII letters in a file name does not matter for the score. */
  lemma ScoreIgnoresCase(file: string, other: string)
    requires SqlLike.SameButCase(file, other)
    ensures WheelScore(file) == WheelScore(other)
  {
    assert ToLower(file) == ToLower(other);
  }

  /** The selection loop over the indexed files of a package. */
  method BestWheel(files: seq<string>) returns (best: Option<string>)
    ensures best.None? <==> forall f :: f in files ==> !IsWheel(f)
    ensures best.Some? ==> exists i: nat :: IsBestAt(files, i) && files[i] == best.value
  {
    best := None;
    var bestScore: int := -1;
    ghost var at: nat := 0;
    for i := 0 to |files|
      invariant best.None? ==> bestScore == -1 && forall j :: 0 <= j < i ==> !IsWheel(files[j])
      invariant best.Some? ==> IsBestAt(files[..i], at) && files[at] == best.value && bestScore == WheelScore(files[at])
    {
      assert files[..i + 1] == files[..i] + [files[i]];
      if IsWheel(files[i]) && WheelScore(files[i]) > bestScore {
        bestScore, best, at := WheelScore(files[i]), Some(files[i]), i;
      }
    }
    assert files[..|files|] == files;
  }

  /** Nothing foreign is listed, and no file before the files the page has ahead of it. */
  ghost predicate FollowsPage(list: seq<string>, page: seq<string>) {
    && (forall q :: 0 <= q < |list| ==> list[q] in page)
    && (forall q, i, j :: 0 <= q < |list| && 0 <= i < j < |page| && list[q] == page[j] && page[j] !in page[..j] ==> page[i] in list[..q])
  }

  /** Any goroutine that has listed the page's first `m` files may list the next one. */
  lemma IndexingFollowsPage(list: seq<string>, page: seq<string>, m: nat)
    requires FollowsPage(list, page) && m < |page| && forall i :: 0 <= i < m ==> page[i] in list
    ensures FollowsPage(list + [page[m]], page)
  {
    var more := list + [page[m]];
    forall q, i, j | 0 <= q < |more| && 0 <= i < j < |page| && more[q] == page[j] && page[j] !in page[..j]
      ensures page[i] in more[..q]
    {
      assert more[..q] == list[..q];
      assert m < j ==> page[..j][m] == page[m];
    }
  }

  /** Once a page is listed completely, the wheel selected is the page's best, however often
      and in whatever interleaving it has been indexed. */
  lemma BestIsStable(list: seq<string>, page: seq<string>, q: nat, i: nat)
    requires FollowsPage(list, page) && IsBestAt(list, q) && IsBestAt(page, i) && page[i] in list
    ensures list[q] == page[i]
  {
    var j := FirstOf(page, list[q]);
    var k :| 0 <= k < |list| && list[k] == page[i];
    assert IsWheel(list[k]) && IsWheel(page[j]);
    ListedBefore(list, page, q, i, j);
  }

  /** The files listed, and how far each goroutine has come with the page. */
  datatype Indexing = Indexing(list: seq<string>, at: map<nat, nat>)

  function Position(x: Indexing, g: nat): nat {
    if g in x.at then x.at[g] else 0
  }

  /** Goroutine `g` lists its next file, if it has one. */
  function IndexNext(x: Indexing, page: seq<string>, g: nat): Indexing {
    var m := Position(x, g);
    if m < |page| then Indexing(x.list + [page[m]], x.at[g := m + 1]) else x
  }

  /** Goroutines move in the order `schedule` says, any number of them. */
  function IndexAll(page: seq<string>, schedule: seq<nat>): Indexing {
    if schedule == [] then Indexing([], map[])
    else IndexNext(IndexAll(page, schedule[..|schedule| - 1]), page, schedule[|schedule| - 1])
  }

  /** The page's first n files are listed. */
  ghost predicate ListsTo(list: seq<string>, page: seq<string>, n: nat) {
    n <= |page| && forall i :: 0 <= i < n ==> page[i] in list
  }

  ghost predicate Listed(x: Indexing, page: seq<string>) {
    FollowsPage(x.list, page) && forall g :: ListsTo(x.list, page, Position(x, g))
  }

  lemma ListsMore(list: seq<string>, page: seq<string>, n: nat, file: string)
    requires ListsTo(list, page, n)
    ensures ListsTo(list + [file], page, n)
    ensures n < |page| && file == page[n] ==> ListsTo(list + [file], page, n + 1)
  {
  }

  lemma NextListed(x: Indexing, page: seq<string>, g: nat)
    requires Listed(x, page)
    ensures Listed(IndexNext(x, page, g), page)
  {
    var m, x' := Position(x, g), IndexNext(x, page, g);
    if m < |page| {
      assert ListsTo(x.list, page, m);
      IndexingFollowsPage(x.list, page, m);
      forall h ensures ListsTo(x'.list, page, Position(x', h)) {
        assert ListsTo(x.list, page, Position(x, h));
        ListsMore(x.list, page, Position(x, h), page[m]);
      }
    }
  }

  lemma StartListed(page: seq<string>)
    ensures Listed(Indexing([], map[]), page)
  {
  }

  /** In every interleaving of goroutines over one page, no file is listed ahead of the files
      before it on the page, and each goroutine's files are listed. */
  lemma {:induction false} EveryScheduleFollows(page: seq<string>, schedule: seq<nat>)
    ensures Listed(IndexAll(page, schedule), page)
  {
    if schedule == [] {
      StartListed(page);
    } else {
      EveryScheduleFollows(page, schedule[..|schedule| - 1]);
      NextListed(IndexAll(page, schedule[..|schedule| - 1]), page, schedule[|schedule| - 1]);
    }
  }

  lemma ScheduleLast(schedule: seq<nat>)
    requires schedule != []
    ensures multiset(schedule) == multiset(schedule[..|schedule| - 1]) + multiset{schedule[|schedule| - 1]}
  {
    assert schedule == schedule[..|schedule| - 1] + [schedule[|schedule| - 1]];
  }

  /** A goroutine has listed as many files as it has moved, until it is through the page; and
      every such move has added a file to the list, whether it was there already or not. */
  lemma {:induction false} EveryMoveLists(page: seq<string>, schedule: seq<nat>, g: nat)
    ensures Position(IndexAll(page, schedule), g) == if multiset(schedule)[g] < |page| then multiset(schedule)[g] else |page|
    ensures (forall h :: multiset(schedule)[h] <= |page|) ==> |IndexAll(page, schedule).list| == |schedule|
  {
    if schedule != [] {
      var front, last := schedule[..|schedule| - 1], schedule[|schedule| - 1];
      ScheduleLast(schedule);
      EveryMoveLists(page, front, g);
      EveryMoveLists(page, front, last);
      if forall h :: multiset(schedule)[h] <= |page| {
        assert multiset(front)[last] < multiset(schedule)[last];
        assert forall h :: multiset(front)[h] <= multiset(schedule)[h];
      }
    }
  }

  /** In every interleaving, once some goroutine has been through the page, the wheel selected
      is the page's best. */
  lemma BestOfEverySchedule(page: seq<string>, schedule: seq<nat>, g: nat, q: nat, i: nat)
    requires Position(IndexAll(page, schedule), g) == |page|
    requires IsBestAt(IndexAll(page, schedule).list, q) && IsBestAt(page, i)
    ensures IndexAll(page, schedule).list[q] == page[i]
  {
    EveryScheduleFollows(page, schedule);
    assert ListsTo(IndexAll(page, schedule).list, page, Position(IndexAll(page, schedule), g));
    BestIsStable(IndexAll(page, schedule).list, page, q, i);
  }

  /** A wheel the page has ahead of the selected one scores less. */
  lemma ListedBefore(list: seq<string>, page: seq<string>, q: nat, i: nat, j: nat)
    requires FollowsPage(list, page) && IsBestAt(list, q)
    requires i < |page| && j < |page| && list[q] == page[j] && page[j] !in page[..j]
    ensures i < j && IsWheel(page[i]) ==> WheelScore(page[i]) < WheelScore(list[q])
  {
    if i < j && IsWheel(page[i]) {
      assert page[i] in list[..q];
      var k :| 0 <= k < q && list[k] == page[i];
      assert IsWheel(list[k]);
    }
  }

  lemma FirstOf(s: seq<string>, x: string) returns (j: nat)
    requires x in s
    ensures j < |s| && s[j] == x && x !in s[..j]
  {
    j := 0;
    while s[j] != x
      invariant j < |s| && x !in s[..j] && x in s[j..]
      decreases |s| - j
    {
      j := j + 1;
    }
  }

  // ---------------------------------------------------------------- dependency names

  predicate IsSpace(c: char) {
    c == ' ' || '\t' <= c <= '\r'
  }

  function TrimLeft(s: string): string {
    if s != "" && IsSpace(s[0]) then TrimLeft(s[1..]) else s
  }

  function TrimRight(s: string): string {
    if s != "" && IsSpace(s[|s| - 1]) then TrimRight(s[..|s| - 1]) else s
  }

  function TrimSpace(s: string): string {
    TrimRight(TrimLeft(s))
  }

  predicate IsAlphaNum(c: char) {
    'a' <= c <= 'z' || 'A' <= c <= 'Z' || '0' <= c <= '9'
  }

  predicate IsNameChar(c: char) {
    IsAlphaNum(c) || c == '.' || c == '_' || c == '-'
  }

  function NameRun(s: string): string {
    if s != "" && IsNameChar(s[0]) then [s[0]] + NameRun(s[1..]) else ""
  }

  function DropTail(s: string): string {
    if s != "" && !IsAlphaNum(s[|s| - 1]) then DropTail(s[..|s| - 1]) else s
  }

  /** The longest match of the dependency-name pattern at the start. */
  function DepName(s: string): string {
    if s != "" && IsAlphaNum(s[0]) then DropTail(NameRun(s)) else ""
  }

  /** What the pattern accepts: name characters, with a letter or digit at either end. */
  predicate IsName(p: string) {
    p != "" && IsAlphaNum(p[0]) && IsAlphaNum(p[|p| - 1]) && forall i :: 0 <= i < |p| ==> IsNameChar(p[i])
  }

  lemma {:induction false} NameRunIs(s: string)
    ensures NameRun(s) <= s && forall i :: 0 <= i < |NameRun(s)| ==> IsNameChar(s[i])
    ensures |NameRun(s)| < |s| ==> !IsNameChar(s[|NameRun(s)|])
  {
    if s != "" && IsNameChar(s[0]) {
      NameRunIs(s[1..]);
      var run := NameRun(s[1..]);
      assert forall i :: 0 < i <= |run| ==> s[i] == s[1..][i - 1];
    }
  }

  lemma {:induction false} DropTailIs(s: string)
    ensures DropTail(s) <= s && (DropTail(s) != "" ==> IsAlphaNum(DropTail(s)[|DropTail(s)| - 1]))
  {
    if s != "" && !IsAlphaNum(s[|s| - 1]) {
      DropTailIs(s[..|s| - 1]);
    }
  }

  lemma {:induction false} InsideRun(s: string, p: string)
    requires p <= s && forall i :: 0 <= i < |p| ==> IsNameChar(p[i])
    ensures p <= NameRun(s)
  {
    if p != "" {
      assert IsNameChar(p[0]) && forall i :: 0 <= i < |p[1..]| ==> p[1..][i] == p[i + 1];
      InsideRun(s[1..], p[1..]);
    }
  }

  lemma {:induction false} InsideTail(s: string, p: string)
    requires p <= s && p != "" && IsAlphaNum(p[|p| - 1])
    ensures p <= DropTail(s)
  {
    if !IsAlphaNum(s[|s| - 1]) {
      assert |p| < |s|;
      InsideTail(s[..|s| - 1], p);
    }
  }

  /** The name found is a prefix the pattern accepts, or empty. */
  lemma DepNameIsName(s: string)
    ensures DepName(s) <= s && (DepName(s) == "" || IsName(DepName(s)))
  {
    if s != "" && IsAlphaNum(s[0]) {
      NameRunIs(s);
      DropTailIs(NameRun(s));
      CutIsName(s, NameRun(s), DropTail(NameRun(s)));
    }
  }

  lemma CutIsName(s: string, run: string, d: string)
    requires d <= run <= s && s != "" && IsAlphaNum(s[0]) && forall i :: 0 <= i < |run| ==> IsNameChar(s[i])
    requires d != "" ==> IsAlphaNum(d[|d| - 1])
    ensures d <= s && (d == "" || IsName(d))
  {
    assert forall i :: 0 <= i < |d| ==> d[i] == s[i];
  }

  /** It is the longest such prefix. */
  lemma DepNameIsLongest(s: string, p: string)
    requires p <= s && IsName(p)
    ensures p <= DepName(s) && IsName(DepName(s))
  {
    assert s[0] == p[0];
    InsideRun(s, p);
    InsideTail(NameRun(s), p);
    DepNameIsName(s);
  }

  /** The dependency a METADATA line requires, unless it is only wanted for an extra. */
  function Required(line: string): Option<string> {
    if !HasPrefix(line, "Requires-Dist:") then None
    else
      var value := TrimSpace(TrimPrefix(line, "Requires-Dist:"));
      match Index(value, ";")
      case None => Named(value)
      case Some(i) => if Contains(value[i + 1..], "extra ==") then None else Named(TrimSpace(value[..i]))
  }

  function Named(value: string): Option<string> {
    if DepName(value) == "" then None else Some(DepName(value))
  }

  /** The name is followed by something that is no part of a name. */
  predicate EndsName(rest: string) {
    rest != "" ==> !IsNameChar(rest[0])
  }

  lemma NextOf(name: string, rest: string, found: string)
    requires name <= found <= name + rest
    ensures found == name || (|name| < |found| && rest != "" && found[|name|] == rest[0])
  {
    assert found[..|name|] == name;
  }

  lemma NameFound(name: string, rest: string)
    requires IsName(name) && EndsName(rest)
    ensures DepName(name + rest) == name
  {
    var s := name + rest;
    DepNameIsLongest(s, name);
    DepNameIsName(s);
    NextOf(name, rest, DepName(s));
  }

  /** A name with characters from either end of every range the pattern allows, and some that
      end a name. */
  lemma KnownName(c: char, rest: string)
    requires c in {'@', '[', '`', '{', '/', ':', ' ', '(', '!', '+', ',', '<', '=', '>', '~', ';'}
    ensures DepName("AZaz09.-_AZaz09" + ([c] + rest)) == "AZaz09.-_AZaz09"
    ensures DepName([c] + rest) == ""
  {
    NameFound("AZaz09.-_AZaz09", [c] + rest);
  }

  lemma {:induction false} TrimRightIs(s: string)
    ensures TrimRight(s) <= s && (TrimRight(s) != "" ==> !IsSpace(TrimRight(s)[|TrimRight(s)| - 1]))
    ensures forall i :: |TrimRight(s)| <= i < |s| ==> IsSpace(s[i])
  {
    if s != "" && IsSpace(s[|s| - 1]) {
      TrimRightIs(s[..|s| - 1]);
    }
  }

  /** Nothing but ASCII spaces. */
  predicate Blank(s: string) {
    forall c :: c in s ==> c in {' ', '\t', '\n', '\U{B}', '\U{C}', '\r'}
  }

  lemma {:induction false} BlanksTrimmed(blanks: string, s: string)
    requires Blank(blanks) && s != "" && !IsSpace(s[0])
    ensures TrimLeft(blanks + s) == s
  {
    if blanks == "" {
      assert blanks + s == s;
    } else {
      assert forall c :: c in blanks[1..] ==> c in blanks;
      assert blanks[0] in blanks && (blanks + s)[1..] == blanks[1..] + s;
      BlanksTrimmed(blanks[1..], s);
    }
  }

  /** Trimming leaves the name, and of what follows it a part that still ends it. */
  lemma TrimmedRequirement(blanks: string, name: string, rest: string) returns (left: string)
    requires IsName(name) && EndsName(rest) && Blank(blanks)
    ensures TrimSpace(blanks + name + rest) == name + left && left <= rest && EndsName(left)
    ensures forall i :: |left| <= i < |rest| ==> IsSpace(rest[i])
  {
    var s := name + rest;
    assert !IsSpace(s[0]) && blanks + name + rest == blanks + s;
    BlanksTrimmed(blanks, s);
    TrimRightIs(s);
    var t := TrimRight(s);
    assert |name| <= |t| by {
      assert !IsSpace(s[|name| - 1]);
    }
    left := t[|name|..];
    assert t == name + left && left == rest[..|left|];
    assert forall i :: |left| <= i < |rest| ==> rest[i] == s[|name| + i];
  }

  /** A requirement is read back: without an environment marker, or with one that does not ask
      for an extra, its name is required; with one that does, nothing is. Other lines require
      nothing. */
  lemma RequirementRead(blanks: string, name: string, version: string, marker: string)
    requires Blank(blanks) && IsName(name) && EndsName(version) && ';' !in version
    ensures Required("Requires-Dist:" + blanks + name + version) == Some(name)
    ensures Required("Requires-Dist:" + blanks + name + version + ";" + marker) == if Contains(marker, "extra ==") then None else Some(name)
  {
    NotAfterName(name, version);
    RequiredPlain(blanks, name, version);
    RequiredMarked(blanks, name, version, marker);
  }

  lemma OtherLines(line: string)
    requires !HasPrefix(line, "Requires-Dist:")
    ensures Required(line) == None
  {
  }

  lemma NotAfterName(name: string, version: string)
    requires IsName(name) && ';' !in version
    ensures ';' !in name + version
  {
    assert forall i :: 0 <= i < |name| ==> name[i] != ';';
  }

  /** Spaces trimmed off the end of a marker do not matter. */
  lemma MarkerKept(version: string, marker: string, left: string) returns (m: string)
    requires left <= version + ";" + marker && forall i :: |left| <= i < |version + ";" + marker| ==> IsSpace((version + ";" + marker)[i])
    ensures left == version + ";" + m && (Contains(m, "extra ==") <==> Contains(marker, "extra =="))
  {
    var rest := version + ";" + marker;
    assert rest[|version|] == ';';
    m := left[|version| + 1..];
    assert m == marker[..|m|] && forall i :: |m| <= i < |marker| ==> marker[i] == rest[|version| + 1 + i];
    if Contains(marker, "extra ==") {
      var k := Index(marker, "extra ==").value;
      assert marker[k + 7] == marker[k..k + 8][7] == '=';
      assert m[k..k + 8] == marker[k..k + 8];
      assert Occurs(m, "extra ==", k);
    }
    if Contains(m, "extra ==") {
      assert marker == m + marker[|m|..];
      ContainsExtended(m, marker[|m|..], "extra ==");
    }
  }

  lemma RequiredPlain(blanks: string, name: string, version: string)
    requires Blank(blanks) && IsName(name) && EndsName(version) && ';' !in name + version
    ensures Required("Requires-Dist:" + blanks + name + version) == Some(name)
  {
    var line := "Requires-Dist:" + blanks + name + version;
    assert line == "Requires-Dist:" + (blanks + name + version);
    var left := TrimmedRequirement(blanks, name, version);
    var value := name + left;
    assert value <= name + version;
    forall i: nat | i <= |value| ensures !Occurs(value, ";", i) {
      assert i < |value| ==> value[i..i + 1] == [(name + version)[i]] && (name + version)[i] in name + version;
    }
    NameFound(name, left);
  }

  lemma FirstSemicolon(head: string, tail: string)
    requires ';' !in head
    ensures var s := head + ";" + tail; Index(s, ";") == Some(|head|) && s[..|head|] == head && s[|head| + 1..] == tail
  {
    var s := head + ";" + tail;
    assert s[|head|..|head| + 1] == ";";
    assert Occurs(s, ";", |head|);
    forall j: nat | j < |head| ensures !Occurs(s, ";", j) {
      assert s[j..j + 1] == [head[j]] && head[j] in head;
    }
    var k := Index(s, ";").value;
    assert !(|head| < k);
  }

  lemma RequiredCut(line: string, head: string, m: string)
    requires HasPrefix(line, "Requires-Dist:") && TrimSpace(TrimPrefix(line, "Requires-Dist:")) == head + ";" + m && ';' !in head
    ensures Required(line) == if Contains(m, "extra ==") then None else Named(TrimSpace(head))
  {
    FirstSemicolon(head, m);
  }

  lemma RequiredMarked(blanks: string, name: string, version: string, marker: string)
    requires Blank(blanks) && IsName(name) && EndsName(version) && ';' !in name + version
    ensures Required("Requires-Dist:" + blanks + name + version + ";" + marker) == if Contains(marker, "extra ==") then None else Some(name)
  {
    var line, rest := "Requires-Dist:" + blanks + name + version + ";" + marker, version + ";" + marker;
    assert line == "Requires-Dist:" + (blanks + name + rest);
    var left := TrimmedRequirement(blanks, name, rest);
    var m := MarkerKept(version, marker, left);
    assert name + left == (name + version) + ";" + m;
    RequiredCut(line, name + version, m);
    var l := TrimmedRequirement("", name, version);
    assert "" + name + version == name + version;
    NameFound(name, l);
  }

  function Requirements(lines: seq<string>): (r: seq<Option<string>>)
    ensures |r| == |lines|
  {
    seq(|lines|, i requires 0 <= i < |lines| => Required(lines[i]))
  }

  /** Every required name once. */
  method ParseDependencies(lines: seq<string>) returns (deps: seq<string>)
    ensures forall n :: n in deps <==> Some(n) in Requirements(lines)
    ensures forall i, j :: 0 <= i < j < |deps| ==> deps[i] != deps[j]
  {
    deps := [];
    var seen: set<string> := {};
    ghost var required := Requirements(lines);
    for i := 0 to |lines|
      invariant forall n :: n in seen <==> n in deps
      invariant forall n :: n in deps <==> Some(n) in required[..i]
      invariant forall j, k :: 0 <= j < k < |deps| ==> deps[j] != deps[k]
    {
      var r := Required(lines[i]);
      assert required[..i + 1] == required[..i] + [r];
      if r.Some? && r.value !in seen {
        seen := seen + {r.value};
        deps := deps + [r.value];
      }
    }
    assert required[..|lines|] == required;
  }

  // ---------------------------------------------------------------- the prefetch

  /** What upstream offers, as long as it does not change: the key of the best wheel of a
      dependency, if it has one, and the dependencies in a wheel's METADATA. */
  datatype Upstream = Upstream(best: string -> Option<string>, deps: string -> seq<string>)

  /** A goroutine of the prefetch: not started yet, or past the check that its wheel is
      neither pending nor approved. */
  datatype Task = Queued(dep: string) | Fetching(key: string)

  /** `held` are the keys pending or approved, `landed` those this prefetch enqueued. */
  datatype Pool = Pool(held: set<string>, landed: set<string>, tasks: multiset<Task>)

  function Spawned(deps: seq<string>): multiset<Task> {
    if deps == [] then multiset{} else multiset{Queued(deps[0])} + Spawned(deps[1..])
  }

  /** One atomic step of one goroutine; `fetched` says whether its page, and later its wheel,
      can be downloaded. */
  function Step(up: Upstream, p: Pool, t: Task, fetched: bool): Pool
    requires t in p.tasks
  {
    var rest := p.tasks - multiset{t};
    match t
    case Queued(dep) =>
      var w := up.best(dep);
      if !fetched || w.None? || w.value in p.held then p.(tasks := rest) else p.(tasks := rest + multiset{Fetching(w.value)})
    case Fetching(key) =>
      if fetched then Pool(p.held + {key}, p.landed + {key}, rest + Spawned(up.deps(key))) else p.(tasks := rest)
  }

  ghost predicate IsFetching(t: Task, held: set<string>) {
    t.Fetching? && t.key in held
  }

  /** Downloads under way whose key somebody else has enqueued meanwhile. */
  ghost function Late(tasks: multiset<Task>, held: set<string>): nat
    decreases |tasks|
  {
    if tasks == multiset{} then 0
    else
      var t :| t in tasks;
      (if IsFetching(t, held) then 1 else 0) + Late(tasks - multiset{t}, held)
  }

  ghost function Waiting(tasks: multiset<Task>): nat
    decreases |tasks|
  {
    if tasks == multiset{} then 0
    else
      var t :| t in tasks;
      (if t.Queued? then 1 else 0) + Waiting(tasks - multiset{t})
  }

  lemma {:induction false} LatePick(tasks: multiset<Task>, held: set<string>, t: Task)
    requires t in tasks
    ensures Late(tasks, held) == (if IsFetching(t, held) then 1 else 0) + Late(tasks - multiset{t}, held)
    decreases |tasks|
  {
    var u :| u in tasks && Late(tasks, held) == (if IsFetching(u, held) then 1 else 0) + Late(tasks - multiset{u}, held);
    if u != t {
      LatePick(tasks - multiset{u}, held, t);
      LatePick(tasks - multiset{t}, held, u);
      assert tasks - multiset{u} - multiset{t} == tasks - multiset{t} - multiset{u};
    }
  }

  lemma {:induction false} WaitingPick(tasks: multiset<Task>, t: Task)
    requires t in tasks
    ensures Waiting(tasks) == (if t.Queued? then 1 else 0) + Waiting(tasks - multiset{t})
    decreases |tasks|
  {
    var u :| u in tasks && Waiting(tasks) == (if u.Queued? then 1 else 0) + Waiting(tasks - multiset{u});
    if u != t {
      assert tasks - multiset{u} - multiset{t} == tasks - multiset{t} - multiset{u};
      assert t in tasks - multiset{u} && u in tasks - multiset{t};
      WaitingPick(tasks - multiset{u}, t);
      WaitingPick(tasks - multiset{t}, u);
    }
  }

  lemma LateAdd(tasks: multiset<Task>, held: set<string>, t: Task)
    ensures Late(tasks + multiset{t}, held) == Late(tasks, held) + if IsFetching(t, held) then 1 else 0
  {
    LatePick(tasks + multiset{t}, held, t);
    assert tasks + multiset{t} - multiset{t} == tasks;
  }

  lemma WaitingAdd(tasks: multiset<Task>, t: Task)
    ensures Waiting(tasks + multiset{t}) == Waiting(tasks) + if t.Queued? then 1 else 0
  {
    WaitingPick(tasks + multiset{t}, t);
    assert tasks + multiset{t} - multiset{t} == tasks;
  }

  /** Spawning goroutines adds no download. */
  lemma {:induction false} LateSpawned(tasks: multiset<Task>, held: set<string>, deps: seq<string>)
    ensures Late(tasks + Spawned(deps), held) == Late(tasks, held)
    decreases |deps|
  {
    if deps == [] {
      assert tasks + Spawned(deps) == tasks;
    } else {
      LateAdd(tasks, held, Queued(deps[0]));
      LateSpawned(tasks + multiset{Queued(deps[0])}, held, deps[1..]);
      assert tasks + Spawned(deps) == tasks + multiset{Queued(deps[0])} + Spawned(deps[1..]);
    }
  }

  /** All keys in play are among the wheels upstream offers. */
  ghost predicate Bounded(up: Upstream, wheels: set<string>, tasks: multiset<Task>) {
    && (forall dep :: up.best(dep).Some? ==> up.best(dep).value in wheels)
    && (forall t :: t in tasks && t.Fetching? ==> t.key in wheels)
  }

  /** The termination measure: wheels not held yet, late downloads, goroutines not started,
      goroutines. */
  ghost function Measure(wheels: set<string>, p: Pool): (nat, nat, nat, nat) {
    (|wheels - p.held|, Late(p.tasks, p.held), Waiting(p.tasks), |p.tasks|)
  }

  ghost predicate Less(a: (nat, nat, nat, nat), b: (nat, nat, nat, nat)) {
    || a.0 < b.0
    || (a.0 == b.0 && a.1 < b.1)
    || (a.0 == b.0 && a.1 == b.1 && a.2 < b.2)
    || (a.0 == b.0 && a.1 == b.1 && a.2 == b.2 && a.3 < b.3)
  }

  lemma SmallerWithout(wheels: set<string>, held: set<string>, key: string)
    requires key in wheels && key !in held
    ensures |wheels - (held + {key})| < |wheels - held|
  {
    assert wheels - held == (wheels - (held + {key})) + {key};
  }

  lemma QueuedDecreases(up: Upstream, wheels: set<string>, p: Pool, dep: string, fetched: bool)
    requires Queued(dep) in p.tasks
    ensures Less(Measure(wheels, Step(up, p, Queued(dep), fetched)), Measure(wheels, p))
  {
    var t := Queued(dep);
    var rest := p.tasks - multiset{t};
    LatePick(p.tasks, p.held, t);
    WaitingPick(p.tasks, t);
    var w := up.best(dep);
    if fetched && w.Some? && w.value !in p.held {
      LateAdd(rest, p.held, Fetching(w.value));
      WaitingAdd(rest, Fetching(w.value));
    }
  }

  lemma FailedFetchDecreases(up: Upstream, wheels: set<string>, p: Pool, key: string)
    requires Fetching(key) in p.tasks
    ensures Less(Measure(wheels, Step(up, p, Fetching(key), false)), Measure(wheels, p))
  {
    LatePick(p.tasks, p.held, Fetching(key));
    WaitingPick(p.tasks, Fetching(key));
  }

  lemma FetchDecreases(up: Upstream, wheels: set<string>, p: Pool, key: string)
    requires Fetching(key) in p.tasks && key in wheels
    ensures Less(Measure(wheels, Step(up, p, Fetching(key), true)), Measure(wheels, p))
  {
    var rest := p.tasks - multiset{Fetching(key)};
    if key in p.held {
      assert p.held + {key} == p.held;
      LatePick(p.tasks, p.held, Fetching(key));
      LateSpawned(rest, p.held, up.deps(key));
    } else {
      SmallerWithout(wheels, p.held, key);
    }
  }

  /** Every step of every goroutine lowers the measure, dependency cycles or not. */
  lemma StepDecreases(up: Upstream, wheels: set<string>, p: Pool, t: Task, fetched: bool)
    requires t in p.tasks && Bounded(up, wheels, p.tasks)
    ensures Less(Measure(wheels, Step(up, p, t, fetched)), Measure(wheels, p))
  {
    if t.Queued? {
      QueuedDecreases(up, wheels, p, t.dep, fetched);
    } else if fetched {
      FetchDecreases(up, wheels, p, t.key);
    } else {
      FailedFetchDecreases(up, wheels, p, t.key);
    }
  }

  lemma StepBounded(up: Upstream, wheels: set<string>, p: Pool, t: Task, fetched: bool)
    requires t in p.tasks && Bounded(up, wheels, p.tasks)
    ensures Bounded(up, wheels, Step(up, p, t, fetched).tasks)
  {
    if t.Fetching? {
      SpawnedAreQueued(up.deps(t.key));
    }
  }

  lemma {:induction false} SpawnedAreQueued(deps: seq<string>)
    ensures forall t :: t in Spawned(deps) <==> t.Queued? && t.dep in deps
  {
    if deps != [] {
      SpawnedAreQueued(deps[1..]);
    }
  }

  /** Rows that other actors enqueue meanwhile do not raise the measure. */
  lemma {:induction false} LateIgnoresForeign(tasks: multiset<Task>, held: set<string>, more: set<string>)
    requires forall t :: t in tasks && t.Fetching? && t.key in more ==> t.key in held
    ensures Late(tasks, held + more) == Late(tasks, held)
    decreases |tasks|
  {
    if tasks != multiset{} {
      var t :| t in tasks;
      LatePick(tasks, held, t);
      LatePick(tasks, held + more, t);
      LateIgnoresForeign(tasks - multiset{t}, held, more);
    }
  }

  lemma OutsideDoesNotRaise(up: Upstream, wheels: set<string>, p: Pool, more: set<string>)
    requires Bounded(up, wheels, p.tasks)
    ensures var p' := p.(held := p.held + more);
            Measure(wheels, p') == Measure(wheels, p) || Less(Measure(wheels, p'), Measure(wheels, p))
  {
    var p' := p.(held := p.held + more);
    if wheels * more <= p.held {
      assert wheels - p'.held == wheels - p.held;
      LateIgnoresForeign(p.tasks, p.held, more);
    } else {
      var k :| k in wheels * more && k !in p.held;
      SmallerWithout(wheels, p.held, k);
      assert wheels - p'.held <= wheels - (p.held + {k});
      SetsOrdered(wheels - p'.held, wheels - (p.held + {k}));
    }
  }

  lemma SetsOrdered(a: set<string>, b: set<string>)
    requires a <= b
    ensures |a| <= |b|
  {
    assert b == a + (b - a);
  }

  // ---------------------------------------------------------------- closure

  /** The dependency's wheel, if it has one, is held or on its way. */
  ghost predicate Provided(up: Upstream, p: Pool, dep: string) {
    var w := up.best(dep);
    w.Some? ==> w.value in p.held || Queued(dep) in p.tasks || Fetching(w.value) in p.tasks
  }

  /** So is every dependency of every wheel this prefetch enqueued, and every root. */
  ghost predicate AllProvided(up: Upstream, p: Pool, roots: seq<string>) {
    && (forall dep :: dep in roots ==> Provided(up, p, dep))
    && (forall k, dep :: k in p.landed && dep in up.deps(k) ==> Provided(up, p, dep))
  }

  lemma StepProvides(up: Upstream, p: Pool, t: Task, dep: string)
    requires t in p.tasks && Provided(up, p, dep)
    ensures Provided(up, Step(up, p, t, true), dep)
  {
    var p' := Step(up, p, t, true);
    var rest := p.tasks - multiset{t};
    assert forall u :: u in p.tasks && u != t ==> u in rest;
    assert forall u :: u in rest ==> u in p'.tasks;
  }

  lemma StepProvidesAll(up: Upstream, p: Pool, t: Task, roots: seq<string>)
    requires t in p.tasks && AllProvided(up, p, roots)
    ensures AllProvided(up, Step(up, p, t, true), roots)
  {
    var p' := Step(up, p, t, true);
    forall dep | dep in roots ensures Provided(up, p', dep) {
      StepProvides(up, p, t, dep);
    }
    forall k, dep | k in p'.landed && dep in up.deps(k) ensures Provided(up, p', dep) {
      if k in p.landed {
        StepProvides(up, p, t, dep);
      } else {
        SpawnedAreQueued(up.deps(k));
        assert Queued(dep) in Spawned(up.deps(k));
      }
    }
  }

  /** A step with what other actors did before it. */
  function Turn(up: Upstream, p: Pool, outside: set<string>, t: Task, fetched: bool): Pool
    requires t in p.tasks
  {
    Step(up, p.(held := p.held + outside), t, fetched)
  }

  lemma TurnDecreases(up: Upstream, wheels: set<string>, p: Pool, outside: set<string>, t: Task, fetched: bool)
    requires t in p.tasks && Bounded(up, wheels, p.tasks)
    ensures Less(Measure(wheels, Turn(up, p, outside, t, fetched)), Measure(wheels, p))
    ensures Bounded(up, wheels, Turn(up, p, outside, t, fetched).tasks)
  {
    OutsideDoesNotRaise(up, wheels, p, outside);
    StepDecreases(up, wheels, p.(held := p.held + outside), t, fetched);
    StepBounded(up, wheels, p.(held := p.held + outside), t, fetched);
  }

  lemma TurnProvides(up: Upstream, p: Pool, outside: set<string>, t: Task, roots: seq<string>)
    requires t in p.tasks && AllProvided(up, p, roots)
    ensures AllProvided(up, Turn(up, p, outside, t, true), roots)
  {
    var p' := p.(held := p.held + outside);
    assert AllProvided(up, p', roots) by {
      assert forall dep :: Provided(up, p, dep) ==> Provided(up, p', dep);
    }
    StepProvidesAll(up, p', t, roots);
  }

  /** What is provided when no goroutine is left is held. */
  ghost predicate Closed(up: Upstream, held: set<string>, dep: string) {
    up.best(dep).Some? ==> up.best(dep).value in held
  }

  ghost predicate AllSucceed(fetches: nat -> bool) {
    forall n: nat :: fetches(n)
  }

  lemma AtStart(up: Upstream, held: set<string>, roots: seq<string>)
    ensures AllProvided(up, Pool(held, {}, Spawned(roots)), roots)
    ensures forall t :: t in Spawned(roots) ==> t.Queued?
  {
    SpawnedAreQueued(roots);
  }

  lemma AtEnd(up: Upstream, p: Pool, roots: seq<string>)
    requires p.tasks == multiset{} && AllProvided(up, p, roots)
    ensures forall dep :: dep in roots ==> Closed(up, p.held, dep)
    ensures forall k, dep :: k in p.landed && dep in up.deps(k) ==> Closed(up, p.held, dep)
  {
    assert forall dep :: Provided(up, p, dep) ==> Closed(up, p.held, dep);
  }

  // ---------------------------------------------------------------- runs

  /** One move of a run: the goroutine that moves, what other actors enqueued before it, and
      whether its download succeeds. */
  datatype Move = Move(task: Task, outside: set<string>, fetched: bool)

  /** `pools` are the pools of a prefetch started for the dependencies `roots`. */
  ghost predicate IsRun(up: Upstream, pools: seq<Pool>, moves: seq<Move>, held: set<string>, roots: seq<string>) {
    && |pools| == |moves| + 1
    && pools[0] == Pool(held, {}, Spawned(roots))
    && forall i {:trigger moves[i]} :: 0 <= i < |moves| ==>
         moves[i].task in pools[i].tasks && pools[i + 1] == Turn(up, pools[i], moves[i].outside, moves[i].task, moves[i].fetched)
  }

  ghost predicate AllFetched(moves: seq<Move>) {
    forall i :: 0 <= i < |moves| ==> moves[i].fetched
  }

  lemma {:induction false} RunProvides(up: Upstream, pools: seq<Pool>, moves: seq<Move>, held: set<string>, roots: seq<string>, n: nat)
    requires IsRun(up, pools, moves, held, roots) && AllFetched(moves) && n <= |moves|
    ensures AllProvided(up, pools[n], roots)
  {
    if n == 0 {
      AtStart(up, held, roots);
    } else {
      RunProvides(up, pools, moves, held, roots, n - 1);
      TurnProvides(up, pools[n - 1], moves[n - 1].outside, moves[n - 1].task, roots);
    }
  }

  /** In every run whose downloads succeed, once no goroutine is left, the wheel the prefetch
      was started for and every wheel it enqueued have their dependencies pending or approved. */
  lemma RunCloses(up: Upstream, pools: seq<Pool>, moves: seq<Move>, held: set<string>, roots: seq<string>, n: nat)
    requires IsRun(up, pools, moves, held, roots) && AllFetched(moves) && n <= |moves| && pools[n].tasks == multiset{}
    ensures forall dep :: dep in roots ==> Closed(up, pools[n].held, dep)
    ensures forall k, dep :: k in pools[n].landed && dep in up.deps(k) ==> Closed(up, pools[n].held, dep)
  {
    RunProvides(up, pools, moves, held, roots, n);
    AtEnd(up, pools[n], roots);
  }

  /** Move `i` enqueued the wheel. */
  ghost predicate Lands(moves: seq<Move>, i: nat, key: string) {
    i < |moves| && moves[i].task == Fetching(key) && moves[i].fetched
  }

  /** The wheels landed are exactly those some move enqueued, and the keys held are exactly
      those, the ones held at first and the ones other actors enqueued. */
  lemma {:induction false} LandedExactly(up: Upstream, pools: seq<Pool>, moves: seq<Move>, held: set<string>, roots: seq<string>, n: nat, key: string)
    requires IsRun(up, pools, moves, held, roots) && n <= |moves|
    ensures key in pools[n].landed <==> exists i :: 0 <= i < n && Lands(moves, i, key)
    ensures key in pools[n].held <==>
      key in held || key in pools[n].landed || exists i :: 0 <= i < n && key in moves[i].outside
  {
    if n != 0 {
      LandedExactly(up, pools, moves, held, roots, n - 1, key);
      TurnLands(up, pools[n - 1], moves[n - 1], key);
      assert pools[n] == Turn(up, pools[n - 1], moves[n - 1].outside, moves[n - 1].task, moves[n - 1].fetched);
      LandsMore(moves, n, key);
    }
  }

  lemma TurnLands(up: Upstream, p: Pool, m: Move, key: string)
    requires m.task in p.tasks
    ensures var p' := Turn(up, p, m.outside, m.task, m.fetched);
            && (key in p'.landed <==> key in p.landed || (m.task == Fetching(key) && m.fetched))
            && (key in p'.held <==> key in p.held || key in m.outside || (m.task == Fetching(key) && m.fetched))
  {
  }

  lemma LandsMore(moves: seq<Move>, n: nat, key: string)
    requires 0 < n <= |moves|
    ensures (exists i :: 0 <= i < n && Lands(moves, i, key)) <==> (exists i :: 0 <= i < n - 1 && Lands(moves, i, key)) || Lands(moves, n - 1, key)
    ensures (exists i :: 0 <= i < n && key in moves[i].outside) <==>
      (exists i :: 0 <= i < n - 1 && key in moves[i].outside) || key in moves[n - 1].outside
  {
  }

  lemma MoveAt(up: Upstream, pools: seq<Pool>, moves: seq<Move>, held: set<string>, roots: seq<string>, n: nat)
    requires IsRun(up, pools, moves, held, roots) && n < |moves|
    ensures moves[n].task in pools[n].tasks
    ensures pools[n + 1] == Turn(up, pools[n], moves[n].outside, moves[n].task, moves[n].fetched)
  {
  }

  // ---------------------------------------------------------------- nothing unwanted

  /** The dependency is one of the roots, or of a wheel this prefetch enqueued. */
  ghost predicate Wanted(up: Upstream, p: Pool, roots: seq<string>, dep: string) {
    dep in roots || exists k :: k in p.landed && dep in up.deps(k)
  }

  ghost predicate WheelWanted(up: Upstream, p: Pool, roots: seq<string>, key: string) {
    exists dep :: Wanted(up, p, roots, dep) && up.best(dep) == Some(key)
  }

  ghost predicate TaskWanted(up: Upstream, p: Pool, roots: seq<string>, t: Task) {
    match t
    case Queued(dep) => Wanted(up, p, roots, dep)
    case Fetching(key) => WheelWanted(up, p, roots, key)
  }

  ghost predicate OnlyWanted(up: Upstream, p: Pool, roots: seq<string>) {
    && (forall t :: t in p.tasks ==> TaskWanted(up, p, roots, t))
    && (forall key :: key in p.landed ==> WheelWanted(up, p, roots, key))
  }

  lemma StillWanted(up: Upstream, p: Pool, p': Pool, roots: seq<string>)
    requires p.landed <= p'.landed
    ensures forall dep :: Wanted(up, p, roots, dep) ==> Wanted(up, p', roots, dep)
    ensures forall key :: WheelWanted(up, p, roots, key) ==> WheelWanted(up, p', roots, key)
    ensures forall t :: TaskWanted(up, p, roots, t) ==> TaskWanted(up, p', roots, t)
  {
    forall key | WheelWanted(up, p, roots, key) ensures WheelWanted(up, p', roots, key) {
      var dep :| Wanted(up, p, roots, dep) && up.best(dep) == Some(key);
      assert Wanted(up, p', roots, dep);
    }
  }

  lemma TurnWanted(up: Upstream, p: Pool, outside: set<string>, t: Task, fetched: bool, roots: seq<string>)
    requires t in p.tasks && OnlyWanted(up, p, roots)
    ensures OnlyWanted(up, Turn(up, p, outside, t, fetched), roots)
  {
    var p' := Turn(up, p, outside, t, fetched);
    StillWanted(up, p, p', roots);
    assert TaskWanted(up, p, roots, t);
    forall u | u in p'.tasks ensures TaskWanted(up, p', roots, u) {
      if u !in p.tasks && t.Fetching? {
        SpawnedAreQueued(up.deps(t.key));
        assert t.key in p'.landed;
      }
    }
  }

  lemma {:induction false} RunWanted(up: Upstream, pools: seq<Pool>, moves: seq<Move>, held: set<string>, roots: seq<string>, n: nat)
    requires IsRun(up, pools, moves, held, roots) && n <= |moves|
    ensures OnlyWanted(up, pools[n], roots)
  {
    if n == 0 {
      SpawnedAreQueued(roots);
    } else {
      RunWanted(up, pools, moves, held, roots, n - 1);
      MoveAt(up, pools, moves, held, roots, n - 1);
      TurnWanted(up, pools[n - 1], moves[n - 1].outside, moves[n - 1].task, moves[n - 1].fetched, roots);
    }
  }

  /** A move before the n-th has read a page from which this wheel was selected. */
  ghost predicate PageRead(up: Upstream, moves: seq<Move>, n: nat, key: string)
    requires n <= |moves|
  {
    exists i :: 0 <= i < n && moves[i].fetched && moves[i].task.Queued? && up.best(moves[i].task.dep) == Some(key)
  }

  lemma TurnFetches(up: Upstream, p: Pool, m: Move, key: string)
    requires m.task in p.tasks && Fetching(key) in Turn(up, p, m.outside, m.task, m.fetched).tasks && Fetching(key) !in p.tasks
    ensures m.fetched && m.task.Queued? && up.best(m.task.dep) == Some(key)
  {
    if m.task.Fetching? {
      SpawnedAreQueued(up.deps(m.task.key));
    }
  }

  lemma {:induction false} FetchingHasPage(up: Upstream, pools: seq<Pool>, moves: seq<Move>, held: set<string>, roots: seq<string>, n: nat, key: string)
    requires IsRun(up, pools, moves, held, roots) && n <= |moves| && Fetching(key) in pools[n].tasks
    ensures PageRead(up, moves, n, key)
  {
    if n == 0 {
      SpawnedAreQueued(roots);
      assert false;
    }
    MoveAt(up, pools, moves, held, roots, n - 1);
    if Fetching(key) in pools[n - 1].tasks {
      FetchingHasPage(up, pools, moves, held, roots, n - 1, key);
    } else {
      TurnFetches(up, pools[n - 1], moves[n - 1], key);
    }
  }

  /** In every run, a wheel is enqueued only if it is the best one of a root or of a dependency
      of another wheel enqueued, and only after a page that offers it has been downloaded. */
  lemma LandedIsWanted(up: Upstream, pools: seq<Pool>, moves: seq<Move>, held: set<string>, roots: seq<string>, n: nat, key: string)
    requires IsRun(up, pools, moves, held, roots) && n <= |moves| && key in pools[n].landed
    ensures exists dep :: Wanted(up, pools[n], roots, dep) && up.best(dep) == Some(key)
    ensures exists j :: 0 <= j < n && Lands(moves, j, key) && PageRead(up, moves, j, key)
  {
    RunWanted(up, pools, moves, held, roots, n);
    LandedExactly(up, pools, moves, held, roots, n, key);
    var j :| 0 <= j < n && Lands(moves, j, key);
    MoveAt(up, pools, moves, held, roots, j);
    FetchingHasPage(up, pools, moves, held, roots, j, key);
  }

  lemma MoveDecreases(up: Upstream, wheels: set<string>, pools: seq<Pool>, moves: seq<Move>, held: set<string>, roots: seq<string>, n: nat)
    requires IsRun(up, pools, moves, held, roots) && n < |moves| && Bounded(up, wheels, pools[n].tasks)
    ensures Bounded(up, wheels, pools[n + 1].tasks) && Less(Measure(wheels, pools[n + 1]), Measure(wheels, pools[n]))
  {
    MoveAt(up, pools, moves, held, roots, n);
    TurnDecreases(up, wheels, pools[n], moves[n].outside, moves[n].task, moves[n].fetched);
  }

  lemma {:induction false} RunBounded(up: Upstream, wheels: set<string>, pools: seq<Pool>, moves: seq<Move>, held: set<string>, roots: seq<string>, n: nat)
    requires IsRun(up, pools, moves, held, roots) && n <= |moves| && Bounded(up, wheels, multiset{})
    ensures Bounded(up, wheels, pools[n].tasks)
  {
    if n == 0 {
      AtStart(up, held, roots);
    } else {
      RunBounded(up, wheels, pools, moves, held, roots, n - 1);
      MoveDecreases(up, wheels, pools, moves, held, roots, n - 1);
    }
  }

  /** Every move of every run lowers the measure, so there is no infinite run. */
  lemma RunDecreases(up: Upstream, wheels: set<string>, pools: seq<Pool>, moves: seq<Move>, held: set<string>, roots: seq<string>, n: nat)
    requires IsRun(up, pools, moves, held, roots) && n < |moves| && Bounded(up, wheels, multiset{})
    ensures Less(Measure(wheels, pools[n + 1]), Measure(wheels, pools[n]))
  {
    RunBounded(up, wheels, pools, moves, held, roots, n);
    MoveDecreases(up, wheels, pools, moves, held, roots, n);
  }

  /** The moves follow what is said of downloads and of other actors. */
  ghost predicate Follows(moves: seq<Move>, fetches: nat -> bool, outside: nat -> set<string>) {
    forall i :: 0 <= i < |moves| ==> moves[i].fetched == fetches(i) && moves[i].outside == outside(i)
  }

  lemma OneMove(up: Upstream, pools: seq<Pool>, moves: seq<Move>, held: set<string>, roots: seq<string>, m: Move)
    requires IsRun(up, pools, moves, held, roots) && m.task in pools[|moves|].tasks
    ensures IsRun(up, pools + [Turn(up, pools[|moves|], m.outside, m.task, m.fetched)], moves + [m], held, roots)
  {
    var more, ms := pools + [Turn(up, pools[|moves|], m.outside, m.task, m.fetched)], moves + [m];
    forall i | 0 <= i < |ms|
      ensures ms[i].task in more[i].tasks && more[i + 1] == Turn(up, more[i], ms[i].outside, ms[i].task, ms[i].fetched)
    {
      if i < |moves| {
        assert ms[i] == moves[i];
        MoveAt(up, pools, moves, held, roots, i);
      }
    }
  }

  /** Nothing held at first or landed is missing. */
  lemma NothingLost(up: Upstream, pools: seq<Pool>, moves: seq<Move>, held: set<string>, roots: seq<string>, n: nat)
    requires IsRun(up, pools, moves, held, roots) && n <= |moves|
    ensures held <= pools[n].held && pools[n].landed <= pools[n].held
  {
    forall key | key in held || key in pools[n].landed ensures key in pools[n].held {
      LandedExactly(up, pools, moves, held, roots, n, key);
    }
  }

  /** `p` is where a run so far has come to. */
  ghost predicate UnderWay(up: Upstream, held: set<string>, roots: seq<string>, fetches: nat -> bool, outside: nat -> set<string>,
                           p: Pool, pools: seq<Pool>, moves: seq<Move>)
  {
    IsRun(up, pools, moves, held, roots) && Follows(moves, fetches, outside) && p == pools[|moves|]
  }

  lemma StillUnderWay(up: Upstream, held: set<string>, roots: seq<string>, fetches: nat -> bool, outside: nat -> set<string>,
                      p: Pool, pools: seq<Pool>, moves: seq<Move>, t: Task)
    requires UnderWay(up, held, roots, fetches, outside, p, pools, moves) && t in p.tasks
    ensures var n := |moves|;
            var p' := Turn(up, p, outside(n), t, fetches(n));
            UnderWay(up, held, roots, fetches, outside, p', pools + [p'], moves + [Move(t, outside(n), fetches(n))])
  {
    OneMove(up, pools, moves, held, roots, Move(t, outside(|moves|), fetches(|moves|)));
  }

  /** The n-th step of some goroutine. */
  method MoveOne(up: Upstream, ghost wheels: set<string>, ghost held: set<string>, ghost roots: seq<string>, fetches: nat -> bool, outside: nat -> set<string>,
                 p: Pool, n: nat, ghost pools: seq<Pool>, ghost moves: seq<Move>) returns (p': Pool, ghost pools': seq<Pool>, ghost moves': seq<Move>)
    requires Bounded(up, wheels, p.tasks) && p.tasks != multiset{} && n == |moves|
    requires UnderWay(up, held, roots, fetches, outside, p, pools, moves)
    ensures Bounded(up, wheels, p'.tasks) && Less(Measure(wheels, p'), Measure(wheels, p)) && |moves'| == n + 1
    ensures UnderWay(up, held, roots, fetches, outside, p', pools', moves')
  {
    var t :| t in p.tasks;
    TurnDecreases(up, wheels, p, outside(n), t, fetches(n));
    ghost var m := Move(t, outside(n), fetches(n));
    StillUnderWay(up, held, roots, fetches, outside, p, pools, moves, t);
    p' := Turn(up, p, outside(n), t, fetches(n));
    pools', moves' := pools + [p'], moves + [m];
  }

  /** Runs a prefetch to its end. Which goroutine moves next is arbitrary, `fetches` says
      which downloads succeed, and `outside` what other actors enqueue before each step. It
      terminates, and its moves are a run that ends in `p` with no goroutine left. */
  method Prefetch(up: Upstream, ghost wheels: set<string>, held: set<string>, roots: seq<string>,
                  fetches: nat -> bool, outside: nat -> set<string>) returns (p: Pool, ghost pools: seq<Pool>, ghost moves: seq<Move>)
    requires Bounded(up, wheels, multiset{})
    ensures IsRun(up, pools, moves, held, roots) && Follows(moves, fetches, outside)
    ensures p == pools[|moves|] && p.tasks == multiset{}
    ensures held <= p.held && p.landed <= p.held
    ensures AllSucceed(fetches) ==> forall dep :: dep in roots ==> Closed(up, p.held, dep)
    ensures AllSucceed(fetches) ==> forall k, dep :: k in p.landed && dep in up.deps(k) ==> Closed(up, p.held, dep)
  {
    p := Pool(held, {}, Spawned(roots));
    AtStart(up, held, roots);
    pools, moves := [p], [];
    var n: nat := 0;
    while p.tasks != multiset{}
      invariant Bounded(up, wheels, p.tasks) && n == |moves|
      invariant UnderWay(up, held, roots, fetches, outside, p, pools, moves)
      decreases Measure(wheels, p).0, Measure(wheels, p).1, Measure(wheels, p).2, Measure(wheels, p).3
    {
      p, pools, moves := MoveOne(up, wheels, held, roots, fetches, outside, p, n, pools, moves);
      n := n + 1;
    }
    NothingLost(up, pools, moves, held, roots, n);
    if AllSucceed(fetches) {
      assert AllFetched(moves);
      RunCloses(up, pools, moves, held, roots, n);
    }
  }
}
