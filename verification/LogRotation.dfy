/** The rotating log file. The specification is an ever-growing list of files; the disk keeps
    the last few of them. */
module LogRotation {
  import opened Wrappers

  type Bytes = seq<byte>

  const LF: byte := 10

  // ---------------------------------------------------------------- specification

  /** A file as the pieces written into it. */
  type File = seq<Bytes>

  function Text(f: File): Bytes {
    if f == [] then [] else Text(f[..|f| - 1]) + f[|f| - 1]
  }

  /** The contents of the first n files. */
  function TextsTo(files: seq<File>, n: nat): Bytes
    requires n <= |files|
  {
    if n == 0 then [] else TextsTo(files, n - 1) + Text(files[n - 1])
  }

  /** The contents of the files from the i-th on. */
  function TextsFrom(files: seq<File>, i: nat): Bytes
    requires i <= |files|
    decreases |files| - i
  {
    if i == |files| then [] else Text(files[i]) + TextsFrom(files, i + 1)
  }

  function Texts(files: seq<File>): Bytes {
    TextsTo(files, |files|)
  }

  function Appended(files: seq<File>, piece: Bytes): (r: seq<File>)
    requires files != []
    ensures |r| == |files|
  {
    files[|files| - 1 := files[|files| - 1] + [piece]]
  }

  lemma NewFile(files: seq<File>, piece: Bytes)
    ensures Appended(files + [[]], piece) == files + [[piece]]
  {
    assert [] + [piece] == [piece];
  }

  /** Oldest first, the last file being written to. */
  function AfterWrite(files: seq<File>, line: Bytes, maxSize: int): (r: seq<File>)
    requires files != []
    ensures |files| <= |r| <= |files| + 1
  {
    var last := |files| - 1;
    if |Text(files[last])| + |line| + 1 > maxSize then files + [[line + [LF]]]
    else Appended(files, line + [LF])
  }

  function AfterWrites(files: seq<File>, lines: seq<Bytes>, maxSize: int): (r: seq<File>)
    requires files != []
    ensures |files| <= |r|
  {
    if lines == [] then files
    else AfterWrite(AfterWrites(files, lines[..|lines| - 1], maxSize), lines[|lines| - 1], maxSize)
  }

  function Terminated(lines: seq<Bytes>): Bytes {
    if lines == [] then [] else Terminated(lines[..|lines| - 1]) + (lines[|lines| - 1] + [LF])
  }

  lemma TextOfMore(f: File, piece: Bytes)
    ensures Text(f + [piece]) == Text(f) + piece
  {
    assert (f + [piece])[..|f|] == f;
  }

  lemma TextOfOne(piece: Bytes)
    ensures Text([piece]) == piece
  {
    TextOfMore([], piece);
    assert [] + [piece] == [piece];
  }

  lemma {:induction false} TextsToSame(files: seq<File>, other: seq<File>, n: nat)
    requires n <= |files| && n <= |other| && forall j :: 0 <= j < n ==> files[j] == other[j]
    ensures TextsTo(files, n) == TextsTo(other, n)
  {
    if n != 0 {
      TextsToSame(files, other, n - 1);
    }
  }

  lemma Append(a: Bytes, b: Bytes, c: Bytes)
    ensures (a + b) + c == a + (b + c)
  {
  }

  lemma TextsAfterWrite(files: seq<File>, line: Bytes, maxSize: int)
    requires files != []
    ensures Texts(AfterWrite(files, line, maxSize)) == Texts(files) + (line + [LF])
  {
    var last, piece, r := |files| - 1, line + [LF], AfterWrite(files, line, maxSize);
    if |r| > |files| {
      TextsToSame(files, r, |files|);
      TextOfOne(piece);
    } else {
      TextsToSame(files, r, last);
      TextOfMore(files[last], piece);
      Append(TextsTo(files, last), Text(files[last]), piece);
    }
  }

  /** Nothing is lost, doubled or reordered among all the files there ever were. */
  lemma {:induction false} WritesInOrder(files: seq<File>, lines: seq<Bytes>, maxSize: int)
    requires files != []
    ensures Texts(AfterWrites(files, lines, maxSize)) == Texts(files) + Terminated(lines)
  {
    if lines != [] {
      var front := lines[..|lines| - 1];
      WritesInOrder(files, front, maxSize);
      TextsAfterWrite(AfterWrites(files, front, maxSize), lines[|lines| - 1], maxSize);
      Append(Texts(files), Terminated(front), lines[|lines| - 1] + [LF]);
    }
  }

  /** Whether a file holds no more than it may, or the one line that does not fit anywhere. */
  predicate Fits(f: File, maxSize: int) {
    f != [] && (|Text(f)| <= maxSize || |f| == 1)
  }

  predicate AllFit(files: seq<File>, from: nat, maxSize: int) {
    forall j: nat :: from <= j < |files| ==> Fits(files[j], maxSize)
  }

  /** The files begun since `files` fit, and the files closed before stay as they were. */
  lemma {:induction false} FilledFilesFit(files: seq<File>, lines: seq<Bytes>, maxSize: int)
    requires files != []
    ensures AllFit(AfterWrites(files, lines, maxSize), |files|, maxSize)
    ensures AfterWrites(files, lines, maxSize)[..|files| - 1] == files[..|files| - 1]
    ensures files[|files| - 1] <= AfterWrites(files, lines, maxSize)[|files| - 1]
  {
    if lines != [] {
      var before := AfterWrites(files, lines[..|lines| - 1], maxSize);
      FilledFilesFit(files, lines[..|lines| - 1], maxSize);
      WriteFits(before, |files|, lines[|lines| - 1], maxSize);
      assert before[..|files| - 1] == AfterWrites(files, lines, maxSize)[..|files| - 1];
    }
  }

  lemma WriteFits(files: seq<File>, from: nat, line: Bytes, maxSize: int)
    requires files != [] && AllFit(files, from, maxSize)
    ensures AllFit(AfterWrite(files, line, maxSize), from, maxSize)
  {
    TextOfMore(files[|files| - 1], line + [LF]);
  }

  /** A new file is begun only for a line the file before had no room for. */
  predicate Full(files: seq<File>, from: nat, maxSize: int) {
    forall j: nat :: from < j < |files| ==> files[j] != [] && |Text(files[j - 1])| + |files[j][0]| > maxSize
  }

  lemma WriteFull(files: seq<File>, from: nat, line: Bytes, maxSize: int)
    requires from < |files| && Full(files, from, maxSize)
    ensures Full(AfterWrite(files, line, maxSize), from, maxSize)
  {
    var r := AfterWrite(files, line, maxSize);
    forall j: nat | from < j < |r| ensures r[j] != [] && |Text(r[j - 1])| + |r[j][0]| > maxSize {
      assert j < |files| ==> r[j - 1] == files[j - 1] && r[j][0] == files[j][0];
    }
  }

  lemma {:induction false} ClosedFilesAreFull(files: seq<File>, lines: seq<Bytes>, maxSize: int)
    requires files != []
    ensures Full(AfterWrites(files, lines, maxSize), |files| - 1, maxSize)
  {
    if lines != [] {
      ClosedFilesAreFull(files, lines[..|lines| - 1], maxSize);
      WriteFull(AfterWrites(files, lines[..|lines| - 1], maxSize), |files| - 1, lines[|lines| - 1], maxSize);
    }
  }

  lemma {:induction false} TextsSplit(files: seq<File>, i: nat)
    requires i <= |files|
    ensures Texts(files) == TextsTo(files, i) + TextsFrom(files, i)
    decreases |files| - i
  {
    if i < |files| {
      TextsSplit(files, i + 1);
      Append(TextsTo(files, i), Text(files[i]), TextsFrom(files, i + 1));
    }
  }

  lemma RecentIsSuffix(files: seq<File>, lines: seq<Bytes>, maxSize: int, n: nat)
    requires 0 < n <= |files|
    ensures var all := AfterWrites(files, lines, maxSize);
            Texts(files) + Terminated(lines) == TextsTo(all, |all| - n) + TextsFrom(all, |all| - n)
  {
    var all := AfterWrites(files, lines, maxSize);
    WritesInOrder(files, lines, maxSize);
    TextsSplit(all, |all| - n);
  }

  // ---------------------------------------------------------------- the backend

  function Get(archives: map<nat, Bytes>, k: nat): Option<Bytes> {
    if k in archives then Some(archives[k]) else None
  }

  /** A missing file holds nothing. */
  function Content(archives: map<nat, Bytes>, k: nat): Bytes {
    if k in archives then archives[k] else []
  }

  /** The archive k once src has taken the name dst; renaming a missing file does nothing. */
  function Renamed(archives: map<nat, Bytes>, src: nat, dst: nat, k: nat): Option<Bytes> {
    if Get(archives, src).None? then Get(archives, k)
    else if k == dst then Get(archives, src)
    else if k == src then None
    else Get(archives, k)
  }

  lemma GetPut(archives: map<nat, Bytes>, i: nat, content: Bytes, k: nat)
    ensures Get(archives[i := content], k) == if k == i then Some(content) else Get(archives, k)
  {
  }

  /** The archive k once the archives from `moved` on have moved up by one, up to maxBackups. */
  function Moved(archives: map<nat, Bytes>, moved: nat, maxBackups: nat, k: nat): Option<Bytes>
  {
    if k == moved then None else if moved < k <= maxBackups then Get(archives, k - 1) else Get(archives, k)
  }

  function Rotated(archives: map<nat, Bytes>, current: Bytes, maxBackups: nat, k: nat): Option<Bytes> {
    if k == 1 then Some(current) else Moved(archives, 1, maxBackups, k)
  }

  /** The archives from the n-th to the first, and the current file. */
  function OnDisk(archives: map<nat, Bytes>, current: Bytes, n: nat): Bytes {
    if n == 0 then current else Content(archives, n) + OnDisk(archives, current, n - 1)
  }

  function Int64(x: int): int {
    (x + 0x8000_0000_0000_0000) % 0x1_0000_0000_0000_0000 - 0x8000_0000_0000_0000
  }

  /** The number of 64 bits that agrees with `x` modulo 2 to the 64. */
  lemma Int64Is(x: int) returns (k: int)
    ensures -0x8000_0000_0000_0000 <= Int64(x) < 0x8000_0000_0000_0000
    ensures Int64(x) == x + k * 0x1_0000_0000_0000_0000
  {
    k := -((x + 0x8000_0000_0000_0000) / 0x1_0000_0000_0000_0000);
  }

  /** Whether the disk holds the last of `files`. */
  ghost predicate Shows(archives: map<nat, Bytes>, current: Bytes, files: seq<File>, maxBackups: nat) {
    && maxBackups < |files|
    && current == Text(files[|files| - 1])
    && forall k: nat :: 1 <= k <= maxBackups ==> Content(archives, k) == Text(files[|files| - 1 - k])
  }

  lemma ShownAt(archives: map<nat, Bytes>, current: Bytes, files: seq<File>, k: nat, maxBackups: nat)
    requires Shows(archives, current, files, maxBackups) && 1 <= k <= maxBackups
    ensures Content(archives, k) == Text(files[|files| - 1 - k])
  {
  }

  lemma LastText(files: seq<File>)
    requires files != []
    ensures TextsFrom(files, |files| - 1) == Text(files[|files| - 1])
  {
    assert TextsFrom(files, |files|) == [];
  }

  lemma DiskStep(archives: map<nat, Bytes>, current: Bytes, files: seq<File>, n: nat, i: nat)
    requires i < |files| && Content(archives, n + 1) == Text(files[i])
    requires OnDisk(archives, current, n) == TextsFrom(files, i + 1)
    ensures OnDisk(archives, current, n + 1) == TextsFrom(files, i)
  {
  }

  predicate ShowsTo(archives: map<nat, Bytes>, current: Bytes, files: seq<File>, n: nat)
    requires n < |files|
  {
    if n == 0 then current == Text(files[|files| - 1])
    else Content(archives, n) == Text(files[|files| - 1 - n]) && ShowsTo(archives, current, files, n - 1)
  }

  lemma {:induction false} ShowsDown(archives: map<nat, Bytes>, current: Bytes, files: seq<File>, n: nat, maxBackups: nat)
    requires Shows(archives, current, files, maxBackups) && n <= maxBackups
    ensures ShowsTo(archives, current, files, n)
  {
    if n != 0 {
      ShowsDown(archives, current, files, n - 1, maxBackups);
      ShownAt(archives, current, files, n, maxBackups);
    }
  }

  lemma {:induction false} DiskShown(archives: map<nat, Bytes>, current: Bytes, files: seq<File>, n: nat, i: nat)
    requires i + n + 1 == |files| && ShowsTo(archives, current, files, n)
    ensures OnDisk(archives, current, n) == TextsFrom(files, i)
  {
    if n == 0 {
      LastText(files);
    } else {
      DiskShown(archives, current, files, n - 1, i + 1);
      DiskStep(archives, current, files, n - 1, i);
    }
  }

  /** The archives and the current file hold, in order, the last of the files. */
  lemma DiskIsRecent(archives: map<nat, Bytes>, current: Bytes, files: seq<File>, maxBackups: nat)
    requires Shows(archives, current, files, maxBackups)
    ensures OnDisk(archives, current, maxBackups) == TextsFrom(files, |files| - 1 - maxBackups)
  {
    ShowsDown(archives, current, files, maxBackups, maxBackups);
    DiskShown(archives, current, files, maxBackups, |files| - 1 - maxBackups);
  }

  /** Moving every archive up by one and the current file to the first shows a new file. */
  lemma ShowsRotated(before: map<nat, Bytes>, after: map<nat, Bytes>, current: Bytes, files: seq<File>, maxBackups: nat)
    requires maxBackups > 0 && Shows(before, current, files, maxBackups)
    requires forall k: nat :: Get(after, k) == Rotated(before, current, maxBackups, k)
    ensures Shows(after, [], files + [[]], maxBackups)
  {
    var more := files + [[]];
    forall k: nat | 1 <= k <= maxBackups ensures Content(after, k) == Text(more[|more| - 1 - k]) {
      assert more[|more| - 1 - k] == files[|files| - k];
      assert Get(after, k) == Rotated(before, current, maxBackups, k);
      assert k > 1 ==> Content(before, k - 1) == Text(files[|files| - 1 - (k - 1)]);
    }
  }

  lemma ShowsAppended(archives: map<nat, Bytes>, current: Bytes, files: seq<File>, maxBackups: nat, piece: Bytes)
    requires Shows(archives, current, files, maxBackups)
    ensures Shows(archives, current + piece, Appended(files, piece), maxBackups)
  {
    var last, more := |files| - 1, Appended(files, piece);
    TextOfMore(files[last], piece);
    assert more[last] == files[last] + [piece];
    forall k: nat | 1 <= k <= maxBackups ensures Content(archives, k) == Text(more[|more| - 1 - k]) {
      assert more[|more| - 1 - k] == files[|files| - 1 - k];
    }
  }

  ghost predicate IsSuffix(s: Bytes, t: Bytes) {
    exists dropped: Bytes :: t == dropped + s
  }

  lemma DiskIsAll(archives: map<nat, Bytes>, current: Bytes, files: seq<File>, maxBackups: nat)
    requires Shows(archives, current, files, maxBackups) && |files| == maxBackups + 1
    ensures OnDisk(archives, current, maxBackups) == Texts(files)
  {
    DiskIsRecent(archives, current, files, maxBackups);
    TextsSplit(files, 0);
    assert TextsTo(files, 0) == [];
  }

  lemma SuffixThenMore(s: Bytes, t: Bytes, u: Bytes, x: Bytes)
    requires IsSuffix(s, t + x) && IsSuffix(t, u)
    ensures IsSuffix(s, u + x)
  {
    var d: Bytes :| t + x == d + s;
    var e: Bytes :| u == e + t;
    Append(e, t, x);
    Append(e, d, s);
  }

  lemma LastTwo(files: seq<File>, f: File)
    requires files != []
    ensures TextsFrom(files + [f], |files| - 1) == Text(files[|files| - 1]) + Text(f)
  {
    LastText(files + [f]);
    assert (files + [f])[|files| - 1] == files[|files| - 1];
  }

  lemma LastAfterWrite(files: seq<File>, line: Bytes, maxSize: int)
    requires files != []
    ensures TextsFrom(AfterWrite(files, line, maxSize), |files| - 1) == Text(files[|files| - 1]) + (line + [LF])
  {
    var piece := line + [LF];
    if |AfterWrite(files, line, maxSize)| > |files| {
      LastTwo(files, [piece]);
      TextOfOne(piece);
    } else {
      LastText(AfterWrite(files, line, maxSize));
      TextOfMore(files[|files| - 1], piece);
    }
  }

  lemma {:induction false} TextsFromAfterWrite(files: seq<File>, line: Bytes, maxSize: int, i: nat)
    requires i < |files|
    ensures TextsFrom(AfterWrite(files, line, maxSize), i) == TextsFrom(files, i) + (line + [LF])
    decreases |files| - i
  {
    if i < |files| - 1 {
      TextsFromAfterWrite(files, line, maxSize, i + 1);
      assert AfterWrite(files, line, maxSize)[i] == files[i];
      Append(Text(files[i]), TextsFrom(files, i + 1), line + [LF]);
    } else {
      LastText(files);
      LastAfterWrite(files, line, maxSize);
    }
  }

  /** A write takes at most the oldest file off the end of what the last n + 1 files held. */
  lemma WriteKeepsSuffix(files: seq<File>, line: Bytes, maxSize: int, n: nat)
    requires n < |files|
    ensures var r := AfterWrite(files, line, maxSize);
            IsSuffix(TextsFrom(r, |r| - 1 - n), TextsFrom(files, |files| - 1 - n) + (line + [LF]))
  {
    var r, i := AfterWrite(files, line, maxSize), |files| - 1 - n;
    TextsFromAfterWrite(files, line, maxSize, i);
    if |r| == |files| {
      SuffixOfSelf(TextsFrom(r, i));
    } else {
      SuffixWithout(r, i);
    }
  }

  lemma SuffixOfSelf(s: Bytes)
    ensures IsSuffix(s, s)
  {
    assert s == [] + s;
  }

  lemma SuffixWithout(files: seq<File>, i: nat)
    requires i < |files|
    ensures IsSuffix(TextsFrom(files, i + 1), TextsFrom(files, i))
  {
    SuffixOfJoin(Text(files[i]), TextsFrom(files, i + 1));
  }

  lemma SuffixOfJoin(dropped: Bytes, s: Bytes)
    ensures IsSuffix(s, dropped + s)
  {
  }

  /** Whatever was written, the last n files hold a suffix of what was there at first followed
      by all the lines. */
  lemma RecentAsSuffix(files: seq<File>, lines: seq<Bytes>, maxSize: int, n: nat)
    requires 0 < n <= |files|
    ensures var all := AfterWrites(files, lines, maxSize);
            IsSuffix(TextsFrom(all, |all| - n), Texts(files) + Terminated(lines))
  {
    var all := AfterWrites(files, lines, maxSize);
    RecentIsSuffix(files, lines, maxSize, n);
    assert Texts(files) + Terminated(lines) == TextsTo(all, |all| - n) + TextsFrom(all, |all| - n);
  }

  /** What the disk holds at first, each file a single piece. */
  function Found(archives: map<nat, Bytes>, current: Bytes, n: nat): (r: seq<File>)
    ensures |r| == n + 1
  {
    if n == 0 then [[current]] else [[Content(archives, n)]] + Found(archives, current, n - 1)
  }

  lemma {:induction false} FoundShownTo(archives: map<nat, Bytes>, current: Bytes, n: nat, k: nat)
    requires k <= n
    ensures Found(archives, current, n)[n - k] == [if k == 0 then current else Content(archives, k)]
    decreases n
  {
    if k < n {
      FoundShownTo(archives, current, n - 1, k);
    }
  }

  lemma FoundText(archives: map<nat, Bytes>, current: Bytes, n: nat, k: nat)
    requires k <= n
    ensures Text(Found(archives, current, n)[n - k]) == if k == 0 then current else Content(archives, k)
  {
    FoundShownTo(archives, current, n, k);
    TextOfOne(if k == 0 then current else Content(archives, k));
  }

  lemma FoundContent(archives: map<nat, Bytes>, current: Bytes, n: nat, k: nat)
    requires 1 <= k <= n
    ensures var files := Found(archives, current, n); Content(archives, k) == Text(files[|files| - 1 - k])
  {
    FoundText(archives, current, n, k);
  }

  lemma FoundShows(archives: map<nat, Bytes>, current: Bytes, n: nat)
    ensures Shows(archives, current, Found(archives, current, n), n)
  {
    var files := Found(archives, current, n);
    FoundText(archives, current, n, 0);
    forall k: nat | 1 <= k <= n ensures Content(archives, k) == Text(files[|files| - 1 - k]) {
      FoundContent(archives, current, n, k);
    }
  }

  class FileBackend {
    const maxSize: int
    const maxBackups: nat
    var archives: map<nat, Bytes>
    var current: Bytes
    var size: int
    ghost var files: seq<File>

    ghost predicate Valid()
      reads this
    {
      && maxBackups > 0
      && size == |current|
      && Shows(archives, current, files, maxBackups)
    }

    /** Opens the log over whatever the disk holds. */
    constructor (maxSizeMB: int, maxBackups: int, found: map<nat, Bytes>, existing: Bytes)
      ensures Valid() && archives == found && current == existing
      ensures maxSize == Int64((if maxSizeMB <= 0 then 100 else maxSizeMB) * 1024 * 1024)
      ensures this.maxBackups == if maxBackups <= 0 then 5 else maxBackups
      ensures files == Found(found, existing, this.maxBackups) && OnDisk(archives, current, this.maxBackups) == Texts(files)
    {
      var mb, backups := maxSizeMB, maxBackups;
      if mb <= 0 {
        mb := 100;
      }
      if backups <= 0 {
        backups := 5;
      }
      this.maxSize := Int64(mb * 1024 * 1024);
      this.maxBackups := backups;
      archives := found;
      current := existing;
      size := |existing|;
      files := Found(found, existing, backups);
      new;
      FoundShows(found, existing, backups);
      DiskIsAll(found, existing, files, backups);
    }

    method Rename(src: nat, dst: nat)
      requires src != dst
      modifies this`archives
      ensures forall k: nat :: Get(archives, k) == Renamed(old(archives), src, dst, k)
    {
      if src in archives {
        archives := (archives - {src})[dst := archives[src]];
      }
    }

    /** The archives move up by one, the oldest giving way, and the current file becomes the
        first of them. */
    method Rotate()
      requires Valid()
      modifies this
      ensures Valid() && current == []
      ensures files == old(files) + [[]]
      ensures forall k: nat :: Get(archives, k) ==
                if k == 1 then Some(old(current)) else if 1 < k <= maxBackups then Get(old(archives), k - 1) else Get(old(archives), k)
    {
      archives := archives - {maxBackups};
      var i := maxBackups - 1;
      while i >= 1
        invariant 0 <= i < maxBackups
        invariant current == old(current) && files == old(files)
        invariant forall k: nat :: Get(archives, k) == Moved(old(archives), i + 1, maxBackups, k)
      {
        ghost var before := archives;
        Rename(i, i + 1);
        forall k: nat ensures Get(archives, k) == Moved(old(archives), i, maxBackups, k) {
          assert Get(before, k) == Moved(old(archives), i + 1, maxBackups, k);
          assert Get(before, i) == Moved(old(archives), i + 1, maxBackups, i);
          assert Get(before, i + 1) == Moved(old(archives), i + 1, maxBackups, i + 1);
        }
        i := i - 1;
      }
      ghost var before := archives;
      archives := archives[1 := current];
      forall k: nat ensures Get(archives, k) == Rotated(old(archives), old(current), maxBackups, k) {
        GetPut(before, 1, current, k);
        assert Get(before, k) == Moved(old(archives), 1, maxBackups, k);
      }
      ShowsRotated(old(archives), archives, current, files, maxBackups);
      current := [];
      size := 0;
      files := files + [[]];
    }

    method Print(line: Bytes)
      requires Valid()
      modifies this`current, this`size, this`files
      ensures Valid()
      ensures current == old(current) + (line + [LF]) && files == Appended(old(files), line + [LF])
    {
      ShowsAppended(archives, current, files, maxBackups, line + [LF]);
      current := current + (line + [LF]);
      size := size + (|line| + 1);
      files := Appended(files, line + [LF]);
    }

    /** Appends a line, to a new file if the current one has no room for it. */
    method Write(line: Bytes)
      requires Valid()
      modifies this
      ensures Valid()
      ensures files == AfterWrite(old(files), line, maxSize)
      ensures current == (if |old(current)| + |line| + 1 > maxSize then [] else old(current)) + (line + [10])
      ensures OnDisk(archives, current, maxBackups) == TextsFrom(files, |files| - 1 - maxBackups)
    {
      if size + |line| + 1 > maxSize {
        Rotate();
        NewFile(old(files), line + [LF]);
      }
      Print(line);
      DiskIsRecent(archives, current, files, maxBackups);
    }

    /** The lines `done` were written, `first` being the files and `before` on disk ahead of
        them. */
    ghost predicate Wrote(first: seq<File>, before: Bytes, done: seq<Bytes>)
      reads this
    {
      && Valid() && first != [] && files == AfterWrites(first, done, maxSize)
      && IsSuffix(OnDisk(archives, current, maxBackups), before + Terminated(done))
    }

    /** One of several writes. */
    method WriteNext(line: Bytes, ghost first: seq<File>, ghost before: Bytes, ghost done: seq<Bytes>)
      requires Wrote(first, before, done)
      modifies this
      ensures Wrote(first, before, done + [line])
    {
      Write(line);
      AfterOneMore(first, done, line, maxSize);
      DiskAfterWrite(old(archives), old(current), archives, current, old(files), line, maxSize, maxBackups, before, done);
    }

    lemma WroteNothing()
      requires Valid()
      ensures Wrote(files, OnDisk(archives, current, maxBackups), [])
    {
      Whole(OnDisk(archives, current, maxBackups));
    }

    /** After any writes the disk holds a suffix of what it held before and all the lines. */
    method WriteAll(lines: seq<Bytes>)
      requires Valid()
      modifies this
      ensures Wrote(old(files), old(OnDisk(archives, current, maxBackups)), lines)
      decreases |lines|
    {
      ghost var first, before := files, OnDisk(archives, current, maxBackups);
      if |lines| == 0 {
        WroteNothing();
      } else {
        var front := lines[..|lines| - 1];
        assert front + [lines[|lines| - 1]] == lines;
        WriteAll(front);
        WriteNext(lines[|lines| - 1], first, before, front);
      }
    }
  }

  lemma AfterOneMore(files: seq<File>, lines: seq<Bytes>, line: Bytes, maxSize: int)
    requires files != []
    ensures AfterWrites(files, lines + [line], maxSize) == AfterWrite(AfterWrites(files, lines, maxSize), line, maxSize)
  {
    assert (lines + [line])[..|lines|] == lines;
  }

  lemma Whole(s: Bytes)
    ensures IsSuffix(s, s + Terminated([]))
  {
    assert s + [] == [] + s;
  }

  lemma DiskAfterWrite(archives: map<nat, Bytes>, current: Bytes, newArchives: map<nat, Bytes>, newCurrent: Bytes,
                       files: seq<File>, line: Bytes, maxSize: int, n: nat, before: Bytes, done: seq<Bytes>)
    requires Shows(archives, current, files, n) && Shows(newArchives, newCurrent, AfterWrite(files, line, maxSize), n)
    requires IsSuffix(OnDisk(archives, current, n), before + Terminated(done))
    ensures IsSuffix(OnDisk(newArchives, newCurrent, n), before + Terminated(done + [line]))
  {
    DiskIsRecent(archives, current, files, n);
    DiskIsRecent(newArchives, newCurrent, AfterWrite(files, line, maxSize), n);
    WriteKeepsSuffix(files, line, maxSize, n);
    OneMore(OnDisk(newArchives, newCurrent, n), OnDisk(archives, current, n), before, done, line);
  }

  lemma OneMore(after: Bytes, disk: Bytes, before: Bytes, lines: seq<Bytes>, line: Bytes)
    requires IsSuffix(disk, before + Terminated(lines)) && IsSuffix(after, disk + (line + [LF]))
    ensures IsSuffix(after, before + Terminated(lines + [line]))
  {
    SuffixThenMore(after, disk, before + Terminated(lines), line + [LF]);
    Append(before, Terminated(lines), line + [LF]);
    assert (lines + [line])[..|lines|] == lines;
  }
}
