/** The archive that the daemon builds (internal/eewlog/store.go) seen through the viewer
    (internal/eewview/list.go): which of the filed telegrams can be reached. */
module ArchiveRuns {
  import opened Text
  import opened Decoder
  import opened DecoderFacts
  import opened Archive
  import opened Viewer

  // ---------- filing one telegram ----------

  /** A directory's entries stay in os.ReadDir's order; an entry that exists stays. */
  function Inserted(entries: seq<Entry>, e: Entry): seq<Entry> {
    if entries == [] then [e]
    else if LexLess(e.name, entries[0].name) then [e] + entries
    else if e.name == entries[0].name then entries
    else [entries[0]] + Inserted(entries[1..], e)
  }

  /** os.MkdirAll's step: the directory `name` in `dir`, unless it is there. */
  function WithDir(tree: Tree, dir: seq<string>, name: string): (t: Tree)
    requires dir in tree
    ensures Child(dir, name) in t && tree.Keys <= t.Keys
  {
    if Child(dir, name) in tree then tree
    else tree[dir := Inserted(tree[dir], Entry(name, true))][Child(dir, name) := []]
  }

  function WithFile(tree: Tree, dir: seq<string>, name: string): (t: Tree)
    requires dir in tree
    ensures t.Keys == tree.Keys
  {
    tree[dir := Inserted(tree[dir], Entry(name, false))]
  }

  /** os.MkdirAll of a path below `dir`. */
  function WithDirs(tree: Tree, dir: seq<string>, names: seq<string>): (t: Tree)
    requires dir in tree
    ensures tree.Keys <= t.Keys && dir + names in t
    decreases |names|
  {
    if names == [] then
      assert dir + names == dir;
      tree
    else
      assert Child(dir, names[0]) + names[1..] == dir + names;
      WithDirs(WithDir(tree, dir, names[0]), Child(dir, names[0]), names[1..])
  }

  /** The eq_id and number under which a telegram is filed. */
  datatype Filing = Filing(eqID: string, num: nat) {
    function Name(): string {
      NameOf(eqID, Decimal(num))
    }
  }

  predicate IsFiling(f: Filing) {
    IsEqID(f.eqID) && f.num <= 9999
  }

  predicate AreFilings(fs: seq<Filing>) {
    forall i :: 0 <= i < |fs| ==> IsFiling(fs[i])
  }

  /** Every decoded telegram makes a filing, and Finalize's path is the file of that name in its
      home below the archive's directory. */
  lemma DecodedIsFiling(t: Tables, raw: string, dir: Path)
    ensures
      var r := Decoded(t, raw).report;
      && r.warnNum >= 0 && IsFiling(Filing(r.eqID, r.warnNum))
      && FinalPath(dir, r.eqID, r.warnNum)
         == Path(dir.rooted, Cleaned(dir).parts + Home(r.eqID) + [Filing(r.eqID, r.warnNum).Name()])
  {
    hide Decoded, FinalPath, Cleaned, Home, NameOf, Decimal;
    DecodedRanges(t, raw);
    var r := Decoded(t, raw).report;
    FinalPathIsHome(dir, r.eqID, r.warnNum);
  }

  /** Finalize: make the directories, move the file there. */
  function Filed(tree: Tree, f: Filing): (t: Tree)
    requires [] in tree
    ensures tree.Keys <= t.Keys
  {
    var home := Home(f.eqID);
    assert [] + home == home;
    WithFile(WithDirs(tree, [], home), home, f.Name())
  }

  // ---------- entries in order ----------

  lemma {:induction false} InsertedContents(entries: seq<Entry>, e: Entry)
    requires InOrder(entries)
    requires forall i :: 0 <= i < |entries| && entries[i].name == e.name ==> entries[i] == e
    ensures forall x :: x in Inserted(entries, e) <==> x in entries || x == e
  {
    if entries != [] && !LexLess(e.name, entries[0].name) && e.name != entries[0].name {
      InsertedContents(entries[1..], e);
      assert entries == [entries[0]] + entries[1..];
    }
  }

  lemma {:induction false} InsertedInOrder(entries: seq<Entry>, e: Entry)
    requires InOrder(entries)
    ensures InOrder(Inserted(entries, e))
    ensures Inserted(entries, e) != []
    ensures Inserted(entries, e)[0].name == e.name
            || (entries != [] && Inserted(entries, e)[0].name == entries[0].name)
  {
    hide LexLess;
    if entries != [] {
      var first := entries[0];
      LexTotal(e.name, first.name);
      if LexLess(e.name, first.name) {
        forall i | 0 <= i < |entries|
          ensures LexLess(e.name, entries[i].name)
        {
          if i > 0 {
            LexTransitive(e.name, first.name, entries[i].name);
          }
        }
      } else if e.name != first.name {
        var rest := entries[1..];
        InsertedInOrder(rest, e);
        var tail := Inserted(rest, e);
        assert rest != [] ==> rest[0] == entries[1];
        FirstBeforeAll(first, tail);
      }
    }
  }

  lemma FirstBeforeAll(first: Entry, tail: seq<Entry>)
    requires InOrder(tail) && tail != [] && LexLess(first.name, tail[0].name)
    ensures InOrder([first] + tail)
  {
    hide LexLess;
    var all := [first] + tail;
    forall j | 1 <= j < |all|
      ensures LexLess(first.name, all[j].name)
    {
      if j > 1 {
        LexTransitive(first.name, tail[0].name, tail[j - 1].name);
      }
    }
  }

  // ---------- the shape of the archive ----------

  /** A directory of this name may stand here: years at the top, three levels in all. */
  predicate DirFits(dir: seq<string>, name: string) {
    |dir| < 3 && (dir == [] ==> |name| == 4 && IsDigit(name[0]))
  }

  /** A file of this name may stand here: in the directory of its date, or, beginning with a dot
      for want of an eq_id, at the top. */
  predicate FileFits(dir: seq<string>, name: string) {
    || (IsDetailName(name) && dir == [YearPart(name), MonthPart(name), DayPart(name)])
    || (dir == [] && name != "" && name[0] == '.')
  }

  predicate EntryFits(dir: seq<string>, e: Entry) {
    if e.isDir then DirFits(dir, e.name) else FileFits(dir, e.name)
  }

  ghost predicate Layout(tree: Tree) {
    && (forall p, e :: p in tree && e in tree[p] ==> EntryFits(p, e))
    && (forall p :: p in tree ==> |p| <= 3)
  }

  lemma ChildInjective(p: seq<string>, m: string, q: seq<string>, n: string)
    requires Child(p, m) == Child(q, n)
    ensures p == q && m == n
  {
    assert Child(p, m)[..|p|] == p && Child(q, n)[..|q|] == q;
  }

  /** No directory stands where a file may, and the other way round. */
  lemma NoClash(dir: seq<string>, e: Entry, f: Entry)
    requires EntryFits(dir, e) && EntryFits(dir, f) && e.name == f.name
    ensures e == f
  {}

  lemma InsertedHere(tree: Tree, dir: seq<string>, e: Entry)
    requires IsTree(tree) && Layout(tree) && dir in tree && EntryFits(dir, e)
    ensures
      var r := Inserted(tree[dir], e);
      InOrder(r) && (forall x :: x in r <==> x in tree[dir] || x == e)
  {
    hide Inserted, InOrder, EntryFits;
    var entries := tree[dir];
    forall i | 0 <= i < |entries| && entries[i].name == e.name
      ensures entries[i] == e
    {
      assert entries[i] in entries;
      NoClash(dir, entries[i], e);
    }
    InsertedContents(entries, e);
    InsertedInOrder(entries, e);
  }

  lemma EmptyInOrder()
    ensures InOrder([])
  {}

  lemma NewDirKeepsTree(tree: Tree, dir: seq<string>, name: string)
    requires IsTree(tree) && Layout(tree) && dir in tree && Child(dir, name) !in tree && DirFits(dir, name)
    ensures IsTree(WithDir(tree, dir, name))
  {
    InsertedHere(tree, dir, Entry(name, true));
    EmptyInOrder();
    var t, c := WithDir(tree, dir, name), Child(dir, name);
    assert |c| > |dir|;
    hide InOrder, Inserted, Child, Layout, DirFits;
    forall p, n | Child(p, n) in t
      ensures p in t && Entry(n, true) in t[p]
    {
      if Child(p, n) == c {
        ChildInjective(p, n, dir, name);
      }
    }
    forall p, n | p in t && Entry(n, true) in t[p]
      ensures Child(p, n) in t
    {
      assert p != c;
      assert Entry(n, true) in tree[p] || (p == dir && n == name);
    }
  }

  lemma NewDirKeepsLayout(tree: Tree, dir: seq<string>, name: string)
    requires IsTree(tree) && Layout(tree) && dir in tree && Child(dir, name) !in tree && DirFits(dir, name)
    ensures Layout(WithDir(tree, dir, name))
  {
    InsertedHere(tree, dir, Entry(name, true));
    assert |Child(dir, name)| == |dir| + 1;
    hide InOrder, Inserted, IsTree, DirFits, FileFits;
  }

  /** One tree has grown out of another: whatever was there is there. */
  predicate Grown(tree: Tree, t: Tree) {
    forall p, e :: p in tree && e in tree[p] ==> p in t && e in t[p]
  }

  lemma DirAdded(tree: Tree, dir: seq<string>, name: string)
    requires IsTree(tree) && Layout(tree) && dir in tree && DirFits(dir, name)
    ensures
      var t := WithDir(tree, dir, name);
      && IsTree(t) && Layout(t) && Grown(tree, t)
      && (forall p :: p in t <==> p in tree || p == Child(dir, name))
  {
    if Child(dir, name) !in tree {
      InsertedHere(tree, dir, Entry(name, true));
      NewDirKeepsTree(tree, dir, name);
      NewDirKeepsLayout(tree, dir, name);
      hide IsTree, Layout, InOrder, Inserted, DirFits;
    }
  }

  /** p lies between `dir` and the directory `names` below it. */
  predicate OnTheWay(dir: seq<string>, names: seq<string>, p: seq<string>) {
    |dir| < |p| <= |dir| + |names| && p == dir + names[..|p| - |dir|]
  }

  lemma OnTheWayNext(dir: seq<string>, names: seq<string>, p: seq<string>)
    requires names != []
    ensures OnTheWay(dir, names, p) <==> p == Child(dir, names[0]) || OnTheWay(Child(dir, names[0]), names[1..], p)
  {
    var c := Child(dir, names[0]);
    if |c| < |p| <= |dir| + |names| {
      assert c + names[1..][..|p| - |c|] == dir + names[..|p| - |dir|];
    }
    assert dir + names[..1] == c;
  }

  lemma {:induction false} DirsAdded(tree: Tree, dir: seq<string>, names: seq<string>)
    requires IsTree(tree) && Layout(tree) && dir in tree && |dir| + |names| <= 3
    requires dir == [] && names != [] ==> |names[0]| == 4 && IsDigit(names[0][0])
    ensures
      var t := WithDirs(tree, dir, names);
      && IsTree(t) && Layout(t) && Grown(tree, t)
      && (forall p :: p in t <==> p in tree || OnTheWay(dir, names, p))
    decreases |names|
  {
    hide IsTree, Layout, OnTheWay, WithDir, IsDigit;
    if names == [] {
      NothingOnTheWay(dir);
    } else {
      DirAdded(tree, dir, names[0]);
      DirsAdded(WithDir(tree, dir, names[0]), Child(dir, names[0]), names[1..]);
      forall p: seq<string>
        ensures OnTheWay(dir, names, p) <==> p == Child(dir, names[0]) || OnTheWay(Child(dir, names[0]), names[1..], p)
      {
        OnTheWayNext(dir, names, p);
      }
    }
  }

  lemma NothingOnTheWay(dir: seq<string>)
    ensures forall p :: !OnTheWay(dir, [], p)
  {}

  lemma FileAdded(tree: Tree, dir: seq<string>, name: string)
    requires IsTree(tree) && Layout(tree) && dir in tree && FileFits(dir, name)
    ensures
      var t := WithFile(tree, dir, name);
      IsTree(t) && Layout(t) && Grown(tree, t) && Entry(name, false) in t[dir]
  {
    InsertedHere(tree, dir, Entry(name, false));
    hide InOrder, Inserted, Child, DirFits, FileFits;
  }

  // ---------- filing ----------

  lemma FilingFits(f: Filing)
    requires IsFiling(f)
    ensures FileFits(Home(f.eqID), f.Name())
    ensures f.eqID == "" <==> Home(f.eqID) == []
    ensures f.eqID != "" ==> |Home(f.eqID)| == 3 && |Home(f.eqID)[0]| == 4 && IsDigit(Home(f.eqID)[0][0])
  {
    if f.eqID != "" {
      NameParts(f);
      assert IsDigit(f.eqID[0]);
    }
  }

  lemma NameParts(f: Filing)
    requires IsFiling(f) && f.eqID != ""
    ensures IsDetailName(f.Name())
    ensures Home(f.eqID) == [YearPart(f.Name()), MonthPart(f.Name()), DayPart(f.Name())]
  {
    DetailNameOf(f.eqID, f.num);
    var name := f.Name();
    assert name[0..4] == f.eqID[0..4] && name[4..6] == f.eqID[4..6] && name[6..8] == f.eqID[6..8];
  }

  /** Filing keeps the tree well formed and all that is there, puts the file into its home, and
      makes no directories but those above it. */
  lemma FiledKeeps(tree: Tree, f: Filing)
    requires IsTree(tree) && Layout(tree) && IsFiling(f)
    ensures
      var t, home := Filed(tree, f), Home(f.eqID);
      && IsTree(t) && Layout(t) && Grown(tree, t)
      && home in t && Entry(f.Name(), false) in t[home]
      && (forall p :: p in t <==> p in tree || OnTheWay([], home, p))
  {
    FilingFits(f);
    RootThere(tree);
    hide IsTree, Layout, WithDirs, WithFile, OnTheWay, FileFits, Home, IsFiling;
    var home := Home(f.eqID);
    DirsAdded(tree, [], home);
    var t := WithDirs(tree, [], home);
    assert [] + home == home;
    FileAdded(t, home, f.Name());
    SameDirs(t, home, f.Name());
  }

  lemma SameDirs(tree: Tree, dir: seq<string>, name: string)
    requires dir in tree
    ensures forall p :: p in WithFile(tree, dir, name) <==> p in tree
  {}

  lemma RootThere(tree: Tree)
    requires IsTree(tree)
    ensures [] in tree
  {}

  // ---------- whole runs ----------

  const EMPTY: Tree := map[[] := []]

  /** The archive after these filings, starting from an empty directory. */
  function After(fs: seq<Filing>): (t: Tree)
    ensures [] in t
  {
    if fs == [] then EMPTY else Filed(After(fs[..|fs| - 1]), fs[|fs| - 1])
  }

  predicate IsFiled(tree: Tree, f: Filing) {
    var home := Home(f.eqID);
    home in tree && Entry(f.Name(), false) in tree[home]
  }

  lemma {:induction false} RunKeeps(fs: seq<Filing>)
    requires AreFilings(fs)
    ensures IsTree(After(fs)) && Layout(After(fs))
    ensures forall i :: 0 <= i < |fs| ==> IsFiled(After(fs), fs[i])
  {
    hide IsTree, Layout, IsFiling, Filed;
    if fs == [] {
      EmptyIsTree();
    } else {
      RunKeeps(fs[..|fs| - 1]);
      FiledKeeps(After(fs[..|fs| - 1]), fs[|fs| - 1]);
    }
  }

  lemma EmptyIsTree()
    ensures IsTree(EMPTY) && Layout(EMPTY)
  {
    assert forall p: seq<string>, n: string :: |Child(p, n)| > 0;
  }

  predicate IsAbove(f: Filing, p: seq<string>) {
    OnTheWay([], Home(f.eqID), p)
  }

  predicate MadeBy(fs: seq<Filing>, p: seq<string>) {
    exists k :: 0 <= k < |fs| && IsAbove(fs[k], p)
  }

  lemma MadeByNext(front: seq<Filing>, f: Filing, p: seq<string>)
    ensures MadeBy(front + [f], p) <==> MadeBy(front, p) || IsAbove(f, p)
  {
    hide IsAbove;
    var fs := front + [f];
    assert forall k :: 0 <= k < |front| ==> fs[k] == front[k];
    assert fs[|front|] == f;
    if k :| 0 <= k < |front| && IsAbove(front[k], p) {
      assert IsAbove(fs[k], p);
    }
  }

  /** The directories of the archive are exactly those that filings were made below. */
  lemma {:induction false} DirsOfRun(fs: seq<Filing>, p: seq<string>)
    requires AreFilings(fs)
    ensures p in After(fs) <==> p == [] || MadeBy(fs, p)
  {
    hide OnTheWay, Filed, IsFiling, MadeBy, IsTree, Layout, IsFiled;
    if fs == [] {
      NothingMade(p);
    } else {
      var front, f := fs[..|fs| - 1], fs[|fs| - 1];
      assert fs == front + [f];
      DirsOfRun(front, p);
      RunKeeps(front);
      FiledKeeps(After(front), f);
      MadeByNext(front, f, p);
    }
  }

  lemma NothingMade(p: seq<string>)
    ensures !MadeBy([], p) && (p in After([]) <==> p == [])
  {}

  // ---------- what can be reached ----------

  /** A filing in the same year has month 00, or one in the same month has day 00. */
  predicate Obstructs(f: Filing, other: Filing) {
    var h, o := Home(f.eqID), Home(other.eqID);
    && |h| == |o| == 3 && o[0] == h[0]
    && (o[1] == "00" || (o[1] == h[1] && o[2] == "00"))
  }

  lemma ObstructsOnTheWay(f: Filing, other: Filing)
    requires |Home(f.eqID)| == 3
    ensures
      var h, o := Home(f.eqID), Home(other.eqID);
      Obstructs(f, other) <==> IsAbove(other, [h[0], "00"]) || IsAbove(other, [h[0], h[1], "00"])
  {
    var h, o := Home(f.eqID), Home(other.eqID);
    if |o| == 3 {
      assert [] + o[..2] == [o[0], o[1]] && [] + o[..3] == [o[0], o[1], o[2]];
      var p, q := [h[0], "00"], [h[0], h[1], "00"];
      assert p == [o[0], o[1]] <==> p[0] == o[0] && p[1] == o[1];
      assert q == [o[0], o[1], o[2]] <==> q[0] == o[0] && q[1] == o[1] && q[2] == o[2];
    }
  }

  lemma NumberOfZero(s: string)
    requires AllDigits(s) && |s| == 2
    ensures Number(s) == 0 <==> s == "00"
  {
    var a := s[..1];
    assert a[..0] == "" && Value(a) == DigitValue(s[0]);
    assert Value(s) == 10 * Value(a) + DigitValue(s[1]);
  }

  /** The pages of a filing's date hide a level exactly when some filing obstructs them. */
  lemma NoZeroDirsExactly(fs: seq<Filing>, f: Filing)
    requires AreFilings(fs) && IsFiling(f) && f.eqID != "" && Dated(f.Name())
    ensures NoZeroDirs(After(fs), Number(YearPart(f.Name())), Number(MonthPart(f.Name())))
            <==> forall k :: 0 <= k < |fs| ==> !Obstructs(f, fs[k])
  {
    var name, h := f.Name(), Home(f.eqID);
    NameParts(f);
    DateDigits(name);
    hide IsAbove, IsDetailName;
    var y, m := Number(YearPart(name)), Number(MonthPart(name));
    ZeroDirNames(name);
    DirsOfRun(fs, [h[0], "00"]);
    DirsOfRun(fs, [h[0], h[1], "00"]);
    NoRootZero(fs);
    hide After, Home, AreFilings, Dated, YearPart, MonthPart, DayPart, Number, NameOf, AllDigits;
    forall k | 0 <= k < |fs|
      ensures Obstructs(f, fs[k]) <==> IsAbove(fs[k], [h[0], "00"]) || IsAbove(fs[k], [h[0], h[1], "00"])
    {
      ObstructsOnTheWay(f, fs[k]);
    }
  }

  lemma ZeroDirNames(name: string)
    requires IsDetailName(name) && Dated(name)
    ensures
      var y, m := Number(YearPart(name)), Number(MonthPart(name));
      && YearDir(0) == ["0"] && MonthDir(y, 0) == [YearPart(name), "00"]
      && DayDir(y, m, 0) == [YearPart(name), MonthPart(name), "00"]
  {
    DateDigits(name);
    DateDirs(YearPart(name), MonthPart(name), DayPart(name));
    ZeroNames();
    hide Padded, Decimal, IsDetailName, YearPart, MonthPart, DayPart, AllDigits;
  }

  lemma NoRootZero(fs: seq<Filing>)
    requires AreFilings(fs)
    ensures ["0"] !in After(fs)
  {
    DirsOfRun(fs, ["0"]);
    forall k | 0 <= k < |fs|
      ensures !IsAbove(fs[k], ["0"])
    {
      FilingFits(fs[k]);
      var h := Home(fs[k].eqID);
      assert h != [] ==> ([] + h[..1])[0] == h[0];
    }
  }

  lemma YearOut(tree: Tree, lost: Lost, y: nat, p1: Page)
    requires y <= 9999 && !(2000 <= y <= 3000) && IsPage(tree, lost, Step1(y), p1)
    ensures p1.Months? ==> p1.year != y
  {
    SaturateLink(y, 2000, 3000);
    Step1At(tree, lost, y, p1);
    hide Saturate, Signed;
    hide IsPage, Numbers, TelegramNames, YearDir, MonthDir, DayDir, Readable;
  }

  lemma MonthOut(tree: Tree, lost: Lost, y: nat, m: nat, p2: Page)
    requires 2000 <= y <= 3000 && 12 < m <= 99 && IsPage(tree, lost, Step2(y, m), p2)
    ensures p2.Days? ==> p2.month != m
  {
    assert IsPageAt(tree, lost, y, 12, 0, p2) by {
      SaturateLink(y, 2000, 3000);
      SaturateLink(m, 1, 12);
      SaturateAbsent();
      hide Saturate, Signed, IsPageAt;
    }
    hide IsPage, Numbers, TelegramNames, YearDir, MonthDir, DayDir, Readable;
  }

  lemma DayOut(tree: Tree, lost: Lost, y: nat, m: nat, d: nat, p3: Page)
    requires 2000 <= y <= 3000 && 1 <= m <= 12 && 31 < d <= 99 && IsPage(tree, lost, Step3(y, m, d), p3)
    ensures p3.Files? ==> p3.year == y && p3.month == m && p3.day == 31
  {
    assert IsPageAt(tree, lost, y, m, 31, p3) by {
      SaturateLink(y, 2000, 3000);
      SaturateLink(m, 1, 12);
      SaturateLink(d, 1, 31);
      hide Saturate, Signed, IsPageAt;
    }
    hide IsPage, Numbers, TelegramNames, YearDir, MonthDir, DayDir, Readable;
  }

  /** A day's page does not list the files of another day. */
  lemma OtherDayNotListed(tree: Tree, lost: Lost, name: string, q: Query, p3: Page)
    requires Layout(tree) && IsDetailName(name) && IsPage(tree, lost, q, p3) && p3.Files?
    requires p3.year >= 0 && p3.month >= 0 && p3.day == 31 && Number(DayPart(name)) != 31
    ensures name !in p3.names
  {
    DayPageIsExact(tree, lost, q, p3, name);
    var dir := DayDir(p3.year, p3.month, 31);
    PaddedPrints(31, 2);
    assert dir[2] == Padded(31, 2);
    assert IsDigit(name[0]) by {
      assert name[0] == name[..14][0];
    }
    hide IsPage, IsDetailName, Padded, DayDir, Number, DayPart, MonthPart, YearPart;
    if Entry(name, false) in tree[dir] {
      assert EntryFits(dir, Entry(name, false));
      NumberOfDigits(Padded(31, 2));
    }
  }

  lemma NumberOfDigits(s: string)
    requires AllDigits(s)
    ensures Number(s) == Value(s)
  {}

  /** Beyond the limits the pages are cut to them, or a directory "00" answers; only the last day
      of a month stays to be looked at. */
  lemma UndatedPages(tree: Tree, lost: Lost, y: nat, m: nat, d: nat, p1: Page, p2: Page, p3: Page)
    requires y <= 9999 && m <= 99 && d <= 99 && !(2000 <= y <= 3000 && 1 <= m <= 12 && 1 <= d <= 31)
    requires 2000 <= y ==> YearDir(y) in tree && MonthDir(y, m) in tree && DayDir(y, m, d) in tree
    requires IsPage(tree, lost, Step1(y), p1)
    requires IsPage(tree, lost, Step2(y, m), p2) && IsPage(tree, lost, Step3(y, m, d), p3)
    requires p1.Months? && p1.year == y && p2.Days? && p2.month == m && p3.Files?
    ensures d > 31 && p3.year == y && p3.month == m && p3.day == 31
  {
    hide IsPage, Numbers, YearDir, MonthDir, DayDir, Step1, Step2, Step3, TelegramNames, Readable;
    if !(2000 <= y <= 3000) {
      YearOut(tree, lost, y, p1);
    } else if m == 0 {
      YearPage(tree, lost, y, p1);
    } else if m > 12 {
      MonthOut(tree, lost, y, m, p2);
    } else if d == 0 {
      MonthPage(tree, lost, y, m, p2);
    } else {
      DayOut(tree, lost, y, m, d, p3);
    }
  }

  lemma DirsOfName(tree: Tree, name: string)
    requires IsTree(tree) && Archived(tree, name)
    ensures
      var y, m, d := Number(YearPart(name)), Number(MonthPart(name)), Number(DayPart(name));
      && y <= 9999 && m <= 99 && d <= 99
      && (2000 <= y ==> YearDir(y) in tree && MonthDir(y, m) in tree && DayDir(y, m, d) in tree)
  {
    var sy, sm, sd := YearPart(name), MonthPart(name), DayPart(name);
    DateDigits(name);
    DateBounds(sy, sm, sd);
    hide IsTree, IsDetailName, YearPart, MonthPart, DayPart, AllDigits, Numbers, YearDir, MonthDir, DayDir;
    DateLinked(tree, {}, sy, sm, sd);
    if 2000 <= Number(sy) {
      DateDirs(sy, sm, sd);
    }
  }

  lemma UndatedLinks(tree: Tree, lost: Lost, name: string, y: nat, m: nat, p1: Page, p2: Page, p3: Page)
    requires Layout(tree) && IsDetailName(name)
    requires
      var d := Number(DayPart(name));
      && y <= 9999 && m <= 99 && d <= 99 && !(2000 <= y <= 3000 && 1 <= m <= 12 && 1 <= d <= 31)
      && (2000 <= y ==> YearDir(y) in tree && MonthDir(y, m) in tree && DayDir(y, m, d) in tree)
      && IsPage(tree, lost, Step1(y), p1)
      && IsPage(tree, lost, Step2(y, m), p2) && IsPage(tree, lost, Step3(y, m, d), p3)
    requires p1.Months? && p1.year == y && p2.Days? && p2.month == m && p3.Files?
    ensures name !in p3.names
  {
    hide IsPage, Layout, IsDetailName, Number, DayPart, YearDir, MonthDir, DayDir, Step1, Step2, Step3;
    var d := Number(DayPart(name));
    UndatedPages(tree, lost, y, m, d, p1, p2, p3);
    OtherDayNotListed(tree, lost, name, Step3(y, m, d), p3);
  }

  /** A file whose date is beyond the limits is not reached by the links for its date. */
  lemma UndatedIsNotReached(tree: Tree, lost: Lost, name: string, p0: Page, p1: Page, p2: Page, p3: Page)
    requires IsTree(tree) && Layout(tree) && Archived(tree, name) && !Dated(name)
    requires ArePages(tree, lost, name, p0, p1, p2, p3)
    ensures !Reaches(name, p0, p1, p2, p3)
  {
    hide IsTree, Layout, Archived, IsPage, IsDetailName, Number, YearPart, MonthPart, DayPart, YearDir, MonthDir,
      DayDir, Step0, Step1, Step2, Step3, CanBeRead, NoZeroDirs;
    DirsOfName(tree, name);
    ArchivedName(tree, name);
    var y, m := Number(YearPart(name)), Number(MonthPart(name));
    if p1.Months? && p1.year == y && p2.Days? && p2.month == m && p3.Files? {
      UndatedLinks(tree, lost, name, y, m, p1, p2, p3);
    }
  }

  lemma ArchivedName(tree: Tree, name: string)
    requires Archived(tree, name)
    ensures IsDetailName(name)
  {}

  lemma DateBounds(sy: string, sm: string, sd: string)
    requires AllDigits(sy) && AllDigits(sm) && AllDigits(sd) && |sy| == 4 && |sm| == 2 && |sd| == 2
    ensures Number(sy) == Value(sy) <= 9999 && Number(sm) == Value(sm) <= 99 && Number(sd) == Value(sd) <= 99
  {
    ValueBound(sy);
    ValueBound(sm);
    ValueBound(sd);
  }

  lemma NamelessIsNotReached(tree: Tree, lost: Lost, f: Filing, p0: Page, p1: Page, p2: Page, p3: Page)
    requires f.eqID == "" && f.num <= 9999 && ArePages(tree, lost, f.Name(), p0, p1, p2, p3)
    ensures !Reaches(f.Name(), p0, p1, p2, p3)
  {
    hide IsPage, Number, YearPart, MonthPart, DayPart, NameOf, Decimal, Step0, Step1, Step2, Step3;
    ShortName(f);
    YearOut(tree, lost, 0, p1);
  }

  lemma ShortName(f: Filing)
    requires f.eqID == "" && f.num <= 9999
    ensures Number(YearPart(f.Name())) == 0
  {
    DecimalLength(f.num);
    assert |f.Name()| < 8;
  }

  /** Which files are reached, over every run of filings, dated or not: exactly those that can be
      read, have a date within the viewer's limits, and are not obstructed by a filing with month
      00 in their year or with day 00 in their month. */
  lemma FiledIsReachable(fs: seq<Filing>, i: nat, lost: Lost, p0: Page, p1: Page, p2: Page, p3: Page)
    requires AreFilings(fs) && i < |fs|
    ensures ArePages(After(fs), lost, fs[i].Name(), p0, p1, p2, p3) ==>
              (Reaches(fs[i].Name(), p0, p1, p2, p3) <==>
                 && fs[i].eqID != "" && Dated(fs[i].Name()) && CanBeRead(lost, fs[i].Name())
                 && forall k :: 0 <= k < |fs| ==> !Obstructs(fs[i], fs[k]))
  {
    hide IsTree, Layout, ArePages, Reaches, After, NoZeroDirs, Obstructs, Dated, CanBeRead, NameOf;
    var f := fs[i];
    assert IsFiling(f);
    hide IsFiling;
    RunKeeps(fs);
    if ArePages(After(fs), lost, f.Name(), p0, p1, p2, p3) {
      if f.eqID == "" {
        NamelessIsNotReached(After(fs), lost, f, p0, p1, p2, p3);
      } else {
        NameParts(f);
        if Dated(f.Name()) {
          FileIsReachable(After(fs), lost, f.Name(), p0, p1, p2, p3);
          NoZeroDirsExactly(fs, f);
        } else {
          UndatedIsNotReached(After(fs), lost, f.Name(), p0, p1, p2, p3);
        }
      }
    }
  }

  /** The detail link of any archived file with an eq_id opens the path it was filed under. */
  lemma DetailLinkOpens(f: Filing, cwd: seq<string>, dir: Path)
    requires IsFiling(f) && f.eqID != ""
    ensures IsDetailName(f.Name()) && TelegramPath(cwd, dir, f.Name()) == Some(FinalPath(dir, f.eqID, f.num))
  {
    NameParts(f);
    DetailPathStaysInside(cwd, dir, f.Name());
  }

  // ---------- a filing that hides a year ----------

  lemma FilingDirs(fs: seq<Filing>, k: nat)
    requires AreFilings(fs) && k < |fs| && fs[k].eqID != ""
    ensures
      var h := Home(fs[k].eqID);
      |h| == 3 && [h[0]] in After(fs) && [h[0], h[1]] in After(fs)
  {
    assert IsFiling(fs[k]);
    FilingFits(fs[k]);
    hide IsFiling, After, Home;
    var h := Home(fs[k].eqID);
    assert [] + h[..1] == [h[0]] && [] + h[..2] == [h[0], h[1]];
    assert IsAbove(fs[k], [h[0]]) && IsAbove(fs[k], [h[0], h[1]]);
    DirsOfRun(fs, [h[0]]);
    DirsOfRun(fs, [h[0], h[1]]);
  }

  /** One filing with month 00 takes the links for its whole year away. */
  lemma ZeroMonthHidesYear(fs: seq<Filing>, k: nat, lost: Lost, p1: Page)
    requires AreFilings(fs) && k < |fs| && fs[k].eqID != "" && MonthPart(fs[k].Name()) == "00"
    requires 2000 <= Number(YearPart(fs[k].Name())) <= 3000
    ensures IsPage(After(fs), lost, Step1(Number(YearPart(fs[k].Name()))), p1) ==> !p1.Months?
  {
    FilingDirs(fs, k);
    assert IsFiling(fs[k]);
    NameParts(fs[k]);
    var name := fs[k].Name();
    DateDigits(name);
    var sy, sd := YearPart(name), DayPart(name);
    assert AllDigits(sy) && AllDigits("00") && AllDigits(sd);
    hide After, IsPage, AllDigits, IsFiling, YearDir, MonthDir, Step1, Home, IsDetailName, NameOf, YearPart,
      MonthPart, DayPart;
    NumberOfZero("00");
    NumberOfDigits(sy);
    NumberOfDigits("00");
    DateDirs(sy, "00", sd);
    if IsPage(After(fs), lost, Step1(Number(sy)), p1) {
      YearPage(After(fs), lost, Number(sy), p1);
    }
  }

  lemma YearOfStray()
    ensures Number("2013") == 2013
  {
    assert "2013"[..3] == "201" && "201"[..2] == "20" && "20"[..1] == "2" && "2"[..0] == "";
    assert Value("2") == 2;
    assert Value("20") == 20;
    assert Value("201") == 201;
  }

  const STRAY_ID := "20130017000000"

  lemma StrayParts(num: nat)
    requires num <= 9999
    ensures
      var f := Filing(STRAY_ID, num);
      IsFiling(f) && f.eqID != "" && YearPart(f.Name()) == "2013" && MonthPart(f.Name()) == "00"
  {
    var f, id := Filing(STRAY_ID, num), STRAY_ID;
    assert |id| == 14 && forall i :: 0 <= i < 14 ==> IsDigit(id[i]);
    assert id[0..4] == "2013" && id[4..6] == "00";
    hide Decimal;
    var name := f.Name();
    assert name[0..4] == id[0..4] && name[4..6] == id[4..6];
  }

  /** For example, once a telegram with this eq_id is filed, whatever else has been, the page for
      2013 lists no months. */
  lemma StrayFiling(fs: seq<Filing>, k: nat, lost: Lost, p1: Page)
    requires AreFilings(fs) && k < |fs| && fs[k].eqID == STRAY_ID
    ensures IsPage(After(fs), lost, Step1(2013), p1) ==> !p1.Months?
  {
    assert IsFiling(fs[k]);
    StrayParts(fs[k].num);
    YearOfStray();
    assert fs[k] == Filing(STRAY_ID, fs[k].num);
    hide IsPage, After, Number, YearPart, MonthPart, IsFiling, NameOf, STRAY_ID;
    ZeroMonthHidesYear(fs, k, lost, p1);
  }
}
