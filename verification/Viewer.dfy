/** The viewer's drill-down over the archive (internal/eewview/list.go). */
module Viewer {
  import opened Text
  import opened Archive

  /** A directory of the tree, by its path below the data directory, and what it contains in
      os.ReadDir's order. */
  datatype Entry = Entry(name: string, isDir: bool)

  type Tree = map<seq<string>, seq<Entry>>

  /** The directories and files that cannot be read. */
  type Lost = set<seq<string>>

  function Child(dir: seq<string>, name: string): seq<string> {
    dir + [name]
  }

  ghost predicate IsTree(tree: Tree) {
    && [] in tree
    && (forall p, n :: p in tree && Entry(n, true) in tree[p] ==> Child(p, n) in tree)
    && (forall p, n :: Child(p, n) in tree ==> p in tree && Entry(n, true) in tree[p])
    && (forall p :: p in tree ==> InOrder(tree[p]))
  }

  function Saturate(raw: string, min: int, max: int): int {
    if raw == "" then 0
    else
      var v := match Atoi(raw) case Some(n) => n case None => 0;
      if v > max then max else if v < min then min else v
  }

  predicate IsNumericDir(e: Entry) {
    e.isDir && e.name != "" && IsDigit(e.name[0])
  }

  function NumericNames(entries: seq<Entry>): seq<string> {
    if entries == [] then []
    else
      var last := entries[|entries| - 1];
      NumericNames(entries[..|entries| - 1]) + if IsNumericDir(last) then [last.name] else []
  }

  /** The numbers a page links to; names that Atoi rejects are skipped. */
  function Links(names: seq<string>): seq<int> {
    if names == [] then []
    else
      var n := Atoi(names[|names| - 1]);
      Links(names[..|names| - 1]) + if n.Some? then [n.value] else []
  }

  function TelegramNames(entries: seq<Entry>): seq<string> {
    if entries == [] then []
    else
      var last := entries[|entries| - 1];
      TelegramNames(entries[..|entries| - 1])
      + if !last.isDir && Accepted(last.name) then [last.name] else []
  }

  /** The files of a directory that can be read. */
  function Readable(names: seq<string>, dir: seq<string>, lost: Lost): seq<string> {
    if names == [] then []
    else
      var last := names[|names| - 1];
      Readable(names[..|names| - 1], dir, lost) + if Child(dir, last) in lost then [] else [last]
  }

  datatype Query = Query(year: string, month: string, day: string)

  datatype Page =
    | Years(links: seq<int>)
    | Months(year: int, links: seq<int>)
    | Days(year: int, month: int, links: seq<int>)
    | Files(year: int, month: int, day: int, names: seq<string>)
    | Failed

  function YearDir(year: nat): seq<string> {
    [Decimal(year)]
  }

  function MonthDir(year: nat, month: nat): seq<string> {
    [Padded(year, 4), Padded(month, 2)]
  }

  function DayDir(year: nat, month: nat, day: nat): seq<string> {
    MonthDir(year, month) + [Padded(day, 2)]
  }

  function Numbers(tree: Tree, lost: Lost, dir: seq<string>): seq<int> {
    if dir in tree && dir !in lost then Links(NumericNames(tree[dir])) else []
  }

  /** The page for a query. `names` is filled in by the sort. */
  ghost predicate IsPage(tree: Tree, lost: Lost, q: Query, page: Page) {
    IsPageAt(tree, lost, Saturate(q.year, 2000, 3000), Saturate(q.month, 1, 12), Saturate(q.day, 1, 31), page)
  }

  ghost predicate IsPageAt(tree: Tree, lost: Lost, year: nat, month: nat, day: nat, page: Page) {
    var dir := DayDir(year, month, day);
    if YearDir(year) !in tree then page == Years(Numbers(tree, lost, []))
    else if MonthDir(year, month) !in tree then page == Months(year, Numbers(tree, lost, YearDir(year)))
    else if dir !in tree then page == Days(year, month, Numbers(tree, lost, MonthDir(year, month)))
    else if dir in lost then page == Failed
    else
      && page.Files? && page.year == year && page.month == month && page.day == day
      && SortedNames(page.names)
      && multiset(page.names) == multiset(Readable(TelegramNames(tree[dir]), dir, lost))
  }

  // ---------- as the program has it ----------

  method NumericSubdirs(tree: Tree, lost: Lost, dir: seq<string>) returns (names: seq<string>)
    ensures names == if dir in tree && dir !in lost then NumericNames(tree[dir]) else []
  {
    names := [];
    if dir !in tree || dir in lost {
      return;
    }
    var entries := tree[dir];
    var i := 0;
    assert entries[..0] == [];
    while i < |entries|
      invariant 0 <= i <= |entries|
      invariant names == NumericNames(entries[..i])
    {
      assert entries[..i + 1][..i] == entries[..i];
      if IsNumericDir(entries[i]) {
        names := names + [entries[i].name];
      }
      i := i + 1;
    }
    assert entries[..|entries|] == entries;
  }

  predicate HasDir(entries: seq<Entry>, name: string) {
    exists k :: 0 <= k < |entries| && entries[k] == Entry(name, true)
  }

  lemma HasDirLater(entries: seq<Entry>, last: Entry, name: string)
    requires HasDir(entries, name)
    ensures HasDir(entries + [last], name)
  {
    var k :| 0 <= k < |entries| && entries[k] == Entry(name, true);
    assert (entries + [last])[k] == entries[k];
  }

  predicate InOrder(entries: seq<Entry>) {
    forall i, j :: 0 <= i < j < |entries| ==> LexLess(entries[i].name, entries[j].name)
  }

  lemma DirBeforeLast(entries: seq<Entry>, last: Entry, name: string)
    requires InOrder(entries + [last]) && HasDir(entries, name)
    ensures LexLess(name, last.name)
  {
    var all := entries + [last];
    var k :| 0 <= k < |entries| && entries[k] == Entry(name, true);
    assert all[k] == entries[k] && all[|entries|] == last;
  }

  /** sort.Strings after the filter changes nothing: the names are in order already. */
  lemma {:induction false} NumericNamesSorted(entries: seq<Entry>)
    requires InOrder(entries)
    ensures forall i :: 0 <= i < |NumericNames(entries)| ==> HasDir(entries, NumericNames(entries)[i])
    ensures forall i, j :: 0 <= i < j < |NumericNames(entries)| ==>
              LexLess(NumericNames(entries)[i], NumericNames(entries)[j])
  {
    hide LexLess;
    if entries != [] {
      var n := |entries| - 1;
      var front, last := entries[..n], entries[n];
      assert entries == front + [last];
      NumericNamesSorted(front);
      var names := NumericNames(front);
      forall i | 0 <= i < |names|
        ensures HasDir(entries, names[i]) && LexLess(names[i], last.name)
      {
        assert HasDir(front, names[i]);
        HasDirLater(front, last, names[i]);
        DirBeforeLast(front, last, names[i]);
      }
      if IsNumericDir(last) {
        assert entries[n] == Entry(last.name, true);
      }
    }
  }

  method LinksOf(names: seq<string>) returns (links: seq<int>)
    ensures links == Links(names)
  {
    links := [];
    assert names[..0] == [];
    for i := 0 to |names|
      invariant links == Links(names[..i])
    {
      assert names[..i + 1][..i] == names[..i];
      var n := Atoi(names[i]);
      if n.None? {
        continue;
      }
      links := links + [n.value];
    }
    assert names[..|names|] == names;
  }

  lemma {:induction false} TelegramNamesAccepted(entries: seq<Entry>)
    ensures forall i :: 0 <= i < |TelegramNames(entries)| ==> Accepted(TelegramNames(entries)[i])
  {
    hide Accepted;
    if entries != [] {
      TelegramNamesAccepted(entries[..|entries| - 1]);
    }
  }

  predicate AllAccepted(names: seq<string>) {
    forall i :: 0 <= i < |names| ==> Accepted(names[i])
  }

  /** Stands for sort.Slice with lessEEWFile; only what it ensures is used. */
  method SortNames(names: seq<string>) returns (out: seq<string>)
    requires AllAccepted(names)
    ensures SortedNames(out) && multiset(out) == multiset(names)
  {
    out := [];
    assert names[..0] == [];
    for i := 0 to |names|
      invariant SortedNames(out) && AllAccepted(out)
      invariant multiset(out) == multiset(names[..i])
    {
      assert names[..i + 1] == names[..i] + [names[i]];
      assert Accepted(names[i]);
      out := Insert(out, names[i]);
    }
    assert names[..|names|] == names;
  }

  method Insert(sorted: seq<string>, name: string) returns (out: seq<string>)
    requires SortedNames(sorted) && AllAccepted(sorted) && Accepted(name)
    ensures SortedNames(out) && AllAccepted(out) && multiset(out) == multiset(sorted) + multiset{name}
  {
    hide Accepted, LessEEWFile;
    var k := 0;
    while k < |sorted| && !LessEEWFile(name, sorted[k])
      invariant 0 <= k <= |sorted|
      invariant forall i :: 0 <= i < k ==> !LessEEWFile(name, sorted[i])
    {
      k := k + 1;
    }
    if k < |sorted| {
      InsertPoint(sorted, name, k);
    }
    out := sorted[..k] + [name] + sorted[k..];
    assert sorted == sorted[..k] + sorted[k..];
  }

  lemma InsertPoint(sorted: seq<string>, name: string, k: nat)
    requires SortedNames(sorted) && AllAccepted(sorted) && Accepted(name)
    requires k < |sorted| && LessEEWFile(name, sorted[k])
    ensures forall i :: k <= i < |sorted| ==> !LessEEWFile(sorted[i], name)
  {
    hide LessEEWFile;
    forall i | k <= i < |sorted|
      ensures !LessEEWFile(sorted[i], name)
    {
      assert Accepted(sorted[i]) && Accepted(sorted[k]);
      LessIsStrictWeakOrder(sorted[i], name, sorted[k]);
      LessIsStrictWeakOrder(name, sorted[k], sorted[i]);
    }
  }

  lemma {:induction false} ReadableSorted(names: seq<string>, dir: seq<string>, lost: Lost)
    requires SortedNames(names)
    ensures SortedNames(Readable(names, dir, lost))
    ensures forall x :: x in Readable(names, dir, lost) ==> x in names
  {
    hide LessEEWFile, Child;
    if names != [] {
      var n := |names| - 1;
      ReadableSorted(names[..n], dir, lost);
      var before := Readable(names[..n], dir, lost);
      forall i | 0 <= i < |before|
        ensures !LessEEWFile(names[n], before[i])
      {
        assert before[i] in names[..n];
        var k :| 0 <= k < n && names[k] == before[i];
      }
    }
  }

  lemma {:induction false} ReadableCount(names: seq<string>, dir: seq<string>, lost: Lost, x: string)
    ensures multiset(Readable(names, dir, lost))[x] == if Child(dir, x) in lost then 0 else multiset(names)[x]
  {
    hide Child;
    if names != [] {
      var n := |names| - 1;
      ReadableCount(names[..n], dir, lost, x);
      assert names == names[..n] + [names[n]];
    }
  }

  lemma ReadablePermutes(a: seq<string>, b: seq<string>, dir: seq<string>, lost: Lost)
    requires multiset(a) == multiset(b)
    ensures multiset(Readable(a, dir, lost)) == multiset(Readable(b, dir, lost))
  {
    forall x
      ensures multiset(Readable(a, dir, lost))[x] == multiset(Readable(b, dir, lost))[x]
    {
      ReadableCount(a, dir, lost, x);
      ReadableCount(b, dir, lost, x);
    }
  }

  /** The rows of a day's page: files that cannot be read are passed over. */
  method Rows(names: seq<string>, dir: seq<string>, lost: Lost) returns (rows: seq<string>)
    ensures rows == Readable(names, dir, lost)
  {
    rows := [];
    assert names[..0] == [];
    for i := 0 to |names|
      invariant rows == Readable(names[..i], dir, lost)
    {
      assert names[..i + 1][..i] == names[..i];
      if Child(dir, names[i]) in lost {
        continue;
      }
      rows := rows + [names[i]];
    }
    assert names[..|names|] == names;
  }

  /** An absent parameter is 0, whatever the limits; any other is its number within the limits, or the
      lower limit if it is not a number. */
  lemma SaturateMeans(raw: string, min: nat, max: nat)
    requires min <= max
    ensures
      var v := Saturate(raw, min, max);
      && (raw == "" ==> v == 0)
      && (raw != "" ==> min <= v <= max)
      && (raw != "" && Atoi(raw).None? ==> v == min)
      && forall n :: raw != "" && Atoi(raw) == Some(n) ==>
           (n < min ==> v == min) && (min <= n <= max ==> v == n) && (max < n ==> v == max)
  {
    hide Atoi;
    assert raw == "" ==> Atoi(raw).None? by {
      AtoiOfNothing();
    }
  }

  lemma AtoiOfNothing()
    ensures Atoi("").None?
  {}

  method ListHandler(tree: Tree, lost: Lost, q: Query) returns (page: Page)
    ensures IsPage(tree, lost, q, page)
  {
    hide Atoi, Decimal, Padded;
    var year := Saturate(q.year, 2000, 3000);
    var month := Saturate(q.month, 1, 12);
    var day := Saturate(q.day, 1, 31);
    if YearDir(year) !in tree {
      var names := NumericSubdirs(tree, lost, []);
      var links := LinksOf(names);
      return Years(links);
    }
    if MonthDir(year, month) !in tree {
      var names := NumericSubdirs(tree, lost, YearDir(year));
      var links := LinksOf(names);
      return Months(year, links);
    }
    if DayDir(year, month, day) !in tree {
      var names := NumericSubdirs(tree, lost, MonthDir(year, month));
      var links := LinksOf(names);
      return Days(year, month, links);
    }
    var dir := DayDir(year, month, day);
    if dir in lost {
      return Failed;
    }
    var entries := tree[dir];
    var names: seq<string> := [];
    assert entries[..0] == [];
    for i := 0 to |entries|
      invariant names == TelegramNames(entries[..i])
    {
      assert entries[..i + 1][..i] == entries[..i];
      if !entries[i].isDir && Accepted(entries[i].name) {
        names := names + [entries[i].name];
      }
    }
    assert entries[..|entries|] == entries;
    TelegramNamesAccepted(entries);
    var sorted := SortNames(names);
    ReadableSorted(sorted, dir, lost);
    ReadablePermutes(sorted, names, dir, lost);
    var rows := Rows(sorted, dir, lost);
    return Files(year, month, day, rows);
  }

  // ---------- the pages, spelled out ----------

  /** The page of any query: the first level below which the directory asked for does not exist, with
      the numbers of its subdirectories, or the day's files. */
  lemma PageSpelled(tree: Tree, lost: Lost, q: Query, page: Page)
    requires IsPage(tree, lost, q, page)
    ensures
      var y, m, d := Saturate(q.year, 2000, 3000), Saturate(q.month, 1, 12), Saturate(q.day, 1, 31);
      && y >= 0 && m >= 0 && d >= 0
      && var year, month := [Decimal(y)], [Padded(y, 4), Padded(m, 2)];
      var day := [Padded(y, 4), Padded(m, 2), Padded(d, 2)];
      if year !in tree then page == Years(Numbers(tree, lost, []))
      else if month !in tree then page == Months(y, Numbers(tree, lost, year))
      else if day !in tree then page == Days(y, m, Numbers(tree, lost, month))
      else if day in lost then page == Failed
      else page.Files? && page.year == y && page.month == m && page.day == d
  {
    hide Decimal, Padded, Atoi, Numbers, Readable, TelegramNames;
    var y, m, d := Saturate(q.year, 2000, 3000), Saturate(q.month, 1, 12), Saturate(q.day, 1, 31);
    assert DayDir(y, m, d) == [Padded(y, 4), Padded(m, 2), Padded(d, 2)];
  }

  // ---------- the numbers of a page ----------

  predicate Ascending(at: seq<nat>) {
    forall i, j :: 0 <= i < j < |at| ==> at[i] < at[j]
  }

  /** Below this entry a page links to. */
  predicate IsLinked(e: Entry) {
    e.isDir && e.name != "" && 48 <= e.name[0] as int <= 57 && Atoi(e.name).Some?
  }

  lemma LinksNext(names: seq<string>, name: string)
    ensures Links(names + [name]) == Links(names) + if Atoi(name).Some? then [Atoi(name).value] else []
  {
    assert (names + [name])[..|names|] == names;
  }

  lemma {:induction false} LinksExact(entries: seq<Entry>) returns (at: seq<nat>)
    ensures |at| == |Links(NumericNames(entries))| && Ascending(at)
    ensures forall j :: 0 <= j < |at| ==>
              && at[j] < |entries| && IsLinked(entries[at[j]])
              && Atoi(entries[at[j]].name) == Some(Links(NumericNames(entries))[j])
    ensures forall k :: 0 <= k < |entries| && IsLinked(entries[k]) ==> k in at
  {
    hide Atoi;
    at := [];
    if entries != [] {
      var n := |entries| - 1;
      var front, last := entries[..n], entries[n];
      var before := LinksExact(front);
      at := before;
      var names := NumericNames(front);
      LinksNext(names, last.name);
      if IsLinked(last) {
        at := before + [n];
      }
      assert NumericNames(entries) == if IsNumericDir(last) then names + [last.name] else names + [];
      assert names + [] == names;
      assert forall j :: 0 <= j < |before| ==> entries[before[j]] == front[before[j]];
    }
  }

  /** The numbers that a page links to are, in the order of the directory, those of its subdirectories
      whose names begin with a digit and are numbers, all of them and no others. */
  lemma NumbersExact(tree: Tree, lost: Lost, dir: seq<string>) returns (at: seq<nat>)
    ensures dir !in tree || dir in lost ==> Numbers(tree, lost, dir) == []
    ensures dir in tree && dir !in lost ==>
              && |at| == |Numbers(tree, lost, dir)| && Ascending(at)
              && (forall j :: 0 <= j < |at| ==>
                    && at[j] < |tree[dir]| && IsLinked(tree[dir][at[j]])
                    && Atoi(tree[dir][at[j]].name) == Some(Numbers(tree, lost, dir)[j]))
              && forall k :: 0 <= k < |tree[dir]| && IsLinked(tree[dir][k]) ==> k in at
  {
    hide Atoi;
    at := [];
    if dir in tree && dir !in lost {
      at := LinksExact(tree[dir]);
    }
  }

  // ---------- every archived file can be reached ----------

  lemma {:induction false} NumericNamesComplete(entries: seq<Entry>, k: nat)
    requires k < |entries| && IsNumericDir(entries[k])
    ensures entries[k].name in NumericNames(entries)
  {
    if k < |entries| - 1 {
      NumericNamesComplete(entries[..|entries| - 1], k);
    }
  }

  lemma {:induction false} LinksComplete(names: seq<string>, name: string)
    requires name in names && Atoi(name).Some?
    ensures Atoi(name).value in Links(names)
  {
    hide Atoi;
    var front := names[..|names| - 1];
    if name != names[|names| - 1] {
      var k :| 0 <= k < |names| && names[k] == name;
      assert front[k] == name;
      LinksComplete(front, name);
    }
  }

  lemma {:induction false} TelegramNamesComplete(entries: seq<Entry>, k: nat)
    requires k < |entries| && !entries[k].isDir && Accepted(entries[k].name)
    ensures entries[k].name in TelegramNames(entries)
  {
    hide Accepted;
    if k < |entries| - 1 {
      TelegramNamesComplete(entries[..|entries| - 1], k);
    }
  }

  lemma {:induction false} TelegramNamesSound(entries: seq<Entry>, name: string)
    requires name in TelegramNames(entries)
    ensures Entry(name, false) in entries && Accepted(name)
  {
    hide Accepted;
    var n := |entries| - 1;
    if name in TelegramNames(entries[..n]) {
      TelegramNamesSound(entries[..n], name);
    } else {
      assert entries[n] == Entry(name, false);
    }
  }

  lemma ReadableMember(names: seq<string>, dir: seq<string>, lost: Lost, x: string)
    ensures x in Readable(names, dir, lost) <==> x in names && Child(dir, x) !in lost
  {
    ReadableCount(names, dir, lost, x);
    assert x in Readable(names, dir, lost) <==> x in multiset(Readable(names, dir, lost));
    assert x in names <==> x in multiset(names);
  }

  /** A day's page lists exactly the readable files with an acceptable name, sorted by earthquake
      and then by report number. */
  lemma DayPageIsExact(tree: Tree, lost: Lost, q: Query, page: Page, name: string)
    requires IsPage(tree, lost, q, page) && page.Files?
    requires page.year >= 0 && page.month >= 0 && page.day >= 0
    ensures DayDir(page.year, page.month, page.day) in tree
    ensures
      var dir := DayDir(page.year, page.month, page.day);
      name in page.names <==> Accepted(name) && Entry(name, false) in tree[dir] && Child(dir, name) !in lost
    ensures SortedNames(page.names) && AllAccepted(page.names)
  {
    hide Accepted, Decimal, Padded, Child;
    var dir := DayDir(page.year, page.month, page.day);
    var entries := tree[dir];
    var listed := Readable(TelegramNames(entries), dir, lost);
    assert name in page.names <==> name in multiset(page.names);
    assert name in listed <==> name in multiset(listed);
    ReadableMember(TelegramNames(entries), dir, lost, name);
    if name in TelegramNames(entries) {
      TelegramNamesSound(entries, name);
    }
    if Accepted(name) && Entry(name, false) in entries {
      var k :| 0 <= k < |entries| && entries[k] == Entry(name, false);
      TelegramNamesComplete(entries, k);
    }
    TelegramNamesAccepted(entries);
    forall i | 0 <= i < |page.names|
      ensures Accepted(page.names[i])
    {
      assert page.names[i] in multiset(page.names);
      assert page.names[i] in listed;
      ReadableMember(TelegramNames(entries), dir, lost, page.names[i]);
    }
  }

  /** A numbered subdirectory is linked to by its number, if its parent can be read. */
  lemma SubdirLinked(tree: Tree, lost: Lost, dir: seq<string>, name: string)
    requires IsTree(tree) && Child(dir, name) in tree
    requires AllDigits(name) && 0 < |name| <= 4
    ensures dir in tree && (Value(name) in Numbers(tree, lost, dir) <==> dir !in lost)
  {
    var k :| 0 <= k < |tree[dir]| && tree[dir][k] == Entry(name, true);
    assert IsDigit(name[0]);
    NumericNamesComplete(tree[dir], k);
    AtoiOfDigits(name);
    hide Atoi;
    LinksComplete(NumericNames(tree[dir]), name);
  }

  lemma AtoiOfDigits(s: string)
    requires AllDigits(s) && 0 < |s| <= 4
    ensures Atoi(s) == Some(Value(s))
  {
    assert IsDigit(s[0]);
    ValueBound(s);
  }

  /** Following a link asks for that very number if it is within the limits. */
  lemma SaturateLink(n: nat, min: nat, max: nat)
    requires min <= max <= 9999 && n <= 9999
    ensures Saturate(Signed(n), min, max) == if n < min then min else if n > max then max else n
  {
    AtoiOfDecimal(n);
  }

  /** The date in a file name. */
  function Number(s: string): nat {
    if AllDigits(s) then Value(s) else 0
  }

  function YearPart(name: string): string {
    if |name| >= 8 then name[0..4] else ""
  }

  function MonthPart(name: string): string {
    if |name| >= 8 then name[4..6] else ""
  }

  function DayPart(name: string): string {
    if |name| >= 8 then name[6..8] else ""
  }

  /** The date in the name is one the handler's limits allow. */
  predicate Dated(name: string) {
    && 2000 <= Number(YearPart(name)) <= 3000
    && 1 <= Number(MonthPart(name)) <= 12
    && 1 <= Number(DayPart(name)) <= 31
  }

  /** Where the archive keeps a file: its name begins with the date of its directories. */
  predicate Archived(tree: Tree, name: string) {
    var dir := [YearPart(name), MonthPart(name), DayPart(name)];
    IsDetailName(name) && dir in tree && Entry(name, false) in tree[dir]
  }

  lemma DateDigits(name: string)
    requires IsDetailName(name)
    ensures AllDigits(YearPart(name)) && AllDigits(MonthPart(name)) && AllDigits(DayPart(name))
    ensures |YearPart(name)| == 4 && |MonthPart(name)| == 2 && |DayPart(name)| == 2
    ensures Accepted(name)
  {
    var d := name[..14];
    assert name[0..4] == d[0..4] && name[4..6] == d[4..6] && name[6..8] == d[6..8];
    assert name == NameOf(d, name[15..]);
    ValueBound(name[15..]);
    SplitInvertsNaming(d, name[15..]);
  }

  /** The directories of the date are those the handler asks for. */
  lemma DateDirs(sy: string, sm: string, sd: string)
    requires AllDigits(sy) && AllDigits(sm) && AllDigits(sd) && |sy| == 4 && |sm| == 2 && |sd| == 2
    requires Value(sy) >= 2000
    ensures
      var y, m, d := Value(sy), Value(sm), Value(sd);
      && YearDir(y) == [sy] && MonthDir(y, m) == [sy, sm] && DayDir(y, m, d) == [sy, sm, sd]
  {
    if sy[0] == '0' {
      ValueOfFront(sy);
      SmallValue(sy[1..]);
    }
    DecimalOfValue(sy);
    PaddedOfValue(sy, 4);
    PaddedOfValue(sm, 2);
    PaddedOfValue(sd, 2);
  }

  /** No directory answers to an absent parameter, which is read as 0. */
  ghost predicate NoZeroDirs(tree: Tree, year: nat, month: nat) {
    YearDir(0) !in tree && MonthDir(year, 0) !in tree && DayDir(year, month, 0) !in tree
  }

  /** The queries of the root page and of the links for a date. */
  function Step0(): Query {
    Query("", "", "")
  }

  function Step1(y: int): Query {
    Query(Signed(y), "", "")
  }

  function Step2(y: int, m: int): Query {
    Query(Signed(y), Signed(m), "")
  }

  function Step3(y: int, m: int, d: int): Query {
    Query(Signed(y), Signed(m), Signed(d))
  }

  lemma Step1At(tree: Tree, lost: Lost, y: int, p1: Page)
    requires IsPage(tree, lost, Step1(y), p1)
    ensures IsPageAt(tree, lost, Saturate(Signed(y), 2000, 3000), 0, 0, p1)
  {
    SaturateAbsent();
    hide Saturate, Signed, IsPageAt;
  }

  lemma RootPage(tree: Tree, lost: Lost, p0: Page)
    requires IsPage(tree, lost, Step0(), p0)
    ensures if YearDir(0) in tree then !p0.Years? else p0 == Years(Numbers(tree, lost, []))
  {
    assert IsPageAt(tree, lost, 0, 0, 0, p0) by {
      SaturateAbsent();
      hide Saturate, Signed, IsPageAt;
    }
    hide IsPage, Numbers, TelegramNames, YearDir, MonthDir, DayDir, Readable;
  }

  lemma YearPage(tree: Tree, lost: Lost, y: nat, p1: Page)
    requires 2000 <= y <= 3000 && IsPage(tree, lost, Step1(y), p1) && YearDir(y) in tree
    ensures if MonthDir(y, 0) in tree then !p1.Months? else p1 == Months(y, Numbers(tree, lost, YearDir(y)))
  {
    SaturateLink(y, 2000, 3000);
    Step1At(tree, lost, y, p1);
    hide Saturate, Signed;
    hide IsPage, Numbers, TelegramNames, YearDir, MonthDir, DayDir, Readable;
  }

  lemma MonthPage(tree: Tree, lost: Lost, y: nat, m: nat, p2: Page)
    requires 2000 <= y <= 3000 && 1 <= m <= 12 && IsPage(tree, lost, Step2(y, m), p2)
    requires YearDir(y) in tree && MonthDir(y, m) in tree
    ensures if DayDir(y, m, 0) in tree then !p2.Days?
            else p2 == Days(y, m, Numbers(tree, lost, MonthDir(y, m)))
  {
    assert IsPageAt(tree, lost, y, m, 0, p2) by {
      SaturateLink(y, 2000, 3000);
      SaturateLink(m, 1, 12);
      SaturateAbsent();
      hide Saturate, Signed, IsPageAt;
    }
    hide IsPage, Numbers, TelegramNames, YearDir, MonthDir, DayDir, Readable;
  }

  lemma DayPage(tree: Tree, lost: Lost, y: nat, m: nat, d: nat, p3: Page)
    requires 2000 <= y <= 3000 && 1 <= m <= 12 && 1 <= d <= 31 && IsPage(tree, lost, Step3(y, m, d), p3)
    requires YearDir(y) in tree && MonthDir(y, m) in tree && DayDir(y, m, d) in tree
    ensures
      var dir := DayDir(y, m, d);
      if dir in lost then p3 == Failed
      else p3.Files? && multiset(p3.names) == multiset(Readable(TelegramNames(tree[dir]), dir, lost))
  {
    assert IsPageAt(tree, lost, y, m, d, p3) by {
      SaturateLink(y, 2000, 3000);
      SaturateLink(m, 1, 12);
      SaturateLink(d, 1, 31);
      hide Saturate, Signed, IsPageAt;
    }
    hide IsPage, Numbers, TelegramNames, YearDir, MonthDir, DayDir, Readable;
  }

  lemma DateLinked(tree: Tree, lost: Lost, sy: string, sm: string, sd: string)
    requires IsTree(tree) && [sy, sm, sd] in tree
    requires AllDigits(sy) && AllDigits(sm) && AllDigits(sd) && |sy| == 4 && |sm| == 2 && |sd| == 2
    ensures [sy] in tree && [sy, sm] in tree
    ensures Value(sy) in Numbers(tree, lost, []) <==> [] !in lost
    ensures Value(sm) in Numbers(tree, lost, [sy]) <==> [sy] !in lost
    ensures Value(sd) in Numbers(tree, lost, [sy, sm]) <==> [sy, sm] !in lost
  {
    hide IsTree, AllDigits, Numbers;
    assert Child([sy], sm) == [sy, sm] && Child([sy, sm], sd) == [sy, sm, sd] && Child([], sy) == [sy];
    SubdirLinked(tree, lost, [sy, sm], sd);
    SubdirLinked(tree, lost, [sy], sm);
    SubdirLinked(tree, lost, [], sy);
  }

  lemma EntryListed(entries: seq<Entry>, dir: seq<string>, lost: Lost, name: string, names: seq<string>)
    requires Entry(name, false) in entries && Accepted(name)
    requires multiset(names) == multiset(Readable(TelegramNames(entries), dir, lost))
    ensures name in names <==> Child(dir, name) !in lost
  {
    hide Accepted, Child;
    var k :| 0 <= k < |entries| && entries[k] == Entry(name, false);
    TelegramNamesComplete(entries, k);
    ReadableMember(TelegramNames(entries), dir, lost, name);
    var listed := Readable(TelegramNames(entries), dir, lost);
    assert name in listed <==> name in multiset(listed);
    assert name in names <==> name in multiset(names);
  }

  /** From the root page p0, the links for the file's year, month and day lead over p1 and p2 to
      a page p3 that lists it. */
  predicate Reaches(name: string, p0: Page, p1: Page, p2: Page, p3: Page) {
    var y, m, d := Number(YearPart(name)), Number(MonthPart(name)), Number(DayPart(name));
    && p0.Years? && y in p0.links
    && p1.Months? && p1.year == y && m in p1.links
    && p2.Days? && p2.year == y && p2.month == m && d in p2.links
    && p3.Files? && name in p3.names
  }

  /** The file and the directories above it can be read. */
  predicate CanBeRead(lost: Lost, name: string) {
    var y, m, d := YearPart(name), MonthPart(name), DayPart(name);
    [] !in lost && [y] !in lost && [y, m] !in lost && [y, m, d] !in lost && Child([y, m, d], name) !in lost
  }

  /** The pages for the date in a name. */
  ghost predicate ArePages(tree: Tree, lost: Lost, name: string, p0: Page, p1: Page, p2: Page, p3: Page) {
    var y, m, d := Number(YearPart(name)), Number(MonthPart(name)), Number(DayPart(name));
    && IsPage(tree, lost, Step0(), p0) && IsPage(tree, lost, Step1(y), p1)
    && IsPage(tree, lost, Step2(y, m), p2) && IsPage(tree, lost, Step3(y, m, d), p3)
  }

  /** Following the links reaches an archived file if and only if it can be read and no directory
      on the way answers to an absent parameter. */
  lemma FileIsReachable(tree: Tree, lost: Lost, name: string, p0: Page, p1: Page, p2: Page, p3: Page)
    requires IsTree(tree) && Archived(tree, name) && Dated(name)
    ensures ArePages(tree, lost, name, p0, p1, p2, p3) ==>
              (Reaches(name, p0, p1, p2, p3) <==>
                 CanBeRead(lost, name) && NoZeroDirs(tree, Number(YearPart(name)), Number(MonthPart(name))))
  {
    hide AllDigits, Accepted, IsPage, IsTree, MonthDir, YearDir, DayDir, Numbers,
      TelegramNames, Step0, Step1, Step2, Step3, Readable, Child;
    DateDigits(name);
    var sy, sm, sd := YearPart(name), MonthPart(name), DayPart(name);
    DateDirs(sy, sm, sd);
    DateLinked(tree, lost, sy, sm, sd);
    if ArePages(tree, lost, name, p0, p1, p2, p3) {
      RootPage(tree, lost, p0);
      YearPage(tree, lost, Value(sy), p1);
      MonthPage(tree, lost, Value(sy), Value(sm), p2);
      DayPage(tree, lost, Value(sy), Value(sm), Value(sd), p3);
      if p3.Files? {
        EntryListed(tree[[sy, sm, sd]], [sy, sm, sd], lost, name, p3.names);
      }
    }
  }

  lemma SaturateAbsent()
    ensures forall min, max :: Saturate("", min, max) == 0
  {}

  /** The condition is needed at each level: the page that lists a level is shown exactly when
      no directory answers to the parameter that is absent. */
  lemma AbsentParameter(tree: Tree, lost: Lost, p0: Page, q1: Query, p1: Page, q2: Query, p2: Page)
    requires IsPage(tree, lost, Step0(), p0)
    requires IsPage(tree, lost, q1, p1) && q1.month == "" && YearDir(Saturate(q1.year, 2000, 3000)) in tree
    requires IsPage(tree, lost, q2, p2) && q2.day == "" && YearDir(Saturate(q2.year, 2000, 3000)) in tree
    requires MonthDir(Saturate(q2.year, 2000, 3000), Saturate(q2.month, 1, 12)) in tree
    ensures p0.Years? <==> ["0"] !in tree
    ensures
      var y := Saturate(q1.year, 2000, 3000);
      p1.Months? <==> [Padded(y, 4), "00"] !in tree
    ensures
      var y, m := Saturate(q2.year, 2000, 3000), Saturate(q2.month, 1, 12);
      p2.Days? <==> [Padded(y, 4), Padded(m, 2), "00"] !in tree
  {
    ZeroNames();
    SaturateAbsent();
    hide Padded, Numbers, TelegramNames, Readable;
    var y, m: int := Saturate(q2.year, 2000, 3000), Saturate(q2.month, 1, 12);
    assert DayDir(y, m, 0) == [Padded(y, 4), Padded(m, 2), "00"];
  }

  lemma ZeroNames()
    ensures Decimal(0) == "0" && Padded(0, 2) == "00"
  {
    assert Zeros(1) + "0" == "00";
  }
}
