/** Archive names and paths, as the writer computes them (internal/eewlog/store.go) and as the
    viewer does (internal/eewview/list.go, internal/eewview/detail.go). */
module Archive {
  import opened Text
  import opened Decoder
  import opened DecoderFacts

  // ---------- file names ----------

  datatype FileName = FileName(eqID: string, warnNum: int)

  /** `^(\d+)\.(\d+)$`, and the second number fits an int. */
  function SplitEEWName(name: string): Option<FileName> {
    var dot := IndexOf(name, '.');
    if dot <= 0 || !AllDigits(name[..dot]) || !AllDigits(name[dot + 1..]) then None
    else
      match Atoi(name[dot + 1..])
      case Some(n) => Some(FileName(name[..dot], n))
      case None => None
  }

  predicate Accepted(name: string) {
    SplitEEWName(name).Some?
  }

  /** The parts of an accepted name. */
  function Key(name: string): FileName {
    match SplitEEWName(name)
    case Some(x) => x
    case None => FileName("", 0)
  }

  function NameOf(eqID: string, num: string): string {
    eqID + "." + num
  }

  lemma DotIsFirst(eqID: string, num: string)
    requires AllDigits(eqID)
    ensures
      var s := NameOf(eqID, num);
      IndexOf(s, '.') == |eqID| && s[..|eqID|] == eqID && s[|eqID| + 1..] == num
  {
    var s := NameOf(eqID, num);
    assert s[..|eqID|] == eqID;
    assert s[|eqID|] == '.';
    IndexOfIsFirst(s, '.', |eqID|);
  }

  /** Exactly the names made of two digit strings and a dot are split, into those two. */
  lemma SplitInvertsNaming(eqID: string, num: string)
    requires AllDigits(eqID) && AllDigits(num)
    ensures
      var r := SplitEEWName(NameOf(eqID, num));
      r == if eqID != "" && num != "" && Value(num) <= MAX_INT then Some(FileName(eqID, Value(num))) else None
  {
    DotIsFirst(eqID, num);
    assert num != "" ==> IsDigit(num[0]);
  }

  lemma AcceptedShape(name: string) returns (eqID: string, num: string)
    requires Accepted(name)
    ensures name == NameOf(eqID, num) && eqID != "" && num != "" && AllDigits(eqID) && AllDigits(num)
    ensures SplitEEWName(name) == Some(FileName(eqID, Value(num)))
  {
    var dot := IndexOf(name, '.');
    eqID, num := name[..dot], name[dot + 1..];
    assert name == NameOf(eqID, num);
    SplitInvertsNaming(eqID, num);
  }

  // ---------- the viewer's order ----------

  /** Go's string comparison. */
  predicate LexLess(a: string, b: string) {
    b != "" && (a == "" || a[0] < b[0] || (a[0] == b[0] && LexLess(a[1..], b[1..])))
  }

  lemma {:induction false} LexTotal(a: string, b: string)
    ensures a == b || LexLess(a, b) || LexLess(b, a)
    ensures !(LexLess(a, b) && LexLess(b, a)) && !LexLess(a, a)
  {
    if a != "" && b != "" && a[0] == b[0] {
      LexTotal(a[1..], b[1..]);
      assert a == [a[0]] + a[1..] && b == [b[0]] + b[1..];
    }
    if a != "" {
      LexTotal(a[1..], a[1..]);
    }
  }

  lemma {:induction false} LexTransitive(a: string, b: string, c: string)
    requires LexLess(a, b) && LexLess(b, c)
    ensures LexLess(a, c)
  {
    if a != "" && a[0] == b[0] == c[0] {
      LexTransitive(a[1..], b[1..], c[1..]);
    }
  }

  predicate LessEEWFile(a: string, b: string) {
    var x, y := SplitEEWName(a), SplitEEWName(b);
    if x.Some? && y.Some? && x.value.eqID == y.value.eqID then x.value.warnNum < y.value.warnNum
    else LexLess(a, b)
  }

  /** '.' sorts below every digit, so a dot after each eq_id does not disturb their order. */
  lemma {:induction false} DotBelowDigits(a: string, b: string, x: string, y: string)
    requires AllDigits(a) && AllDigits(b) && a != b
    ensures LexLess(NameOf(a, x), NameOf(b, y)) <==> LexLess(a, b)
    decreases |a|
  {
    var s, t := NameOf(a, x), NameOf(b, y);
    if a == "" {
      assert IsDigit(b[0]) && s[0] == '.' && t[0] == b[0];
    } else if b == "" {
      assert IsDigit(a[0]) && s[0] == a[0] && t[0] == '.';
    } else {
      assert s[0] == a[0] && t[0] == b[0];
      if a[0] == b[0] {
        assert a == [a[0]] + a[1..] && b == [b[0]] + b[1..];
        assert s[1..] == NameOf(a[1..], x) && t[1..] == NameOf(b[1..], y);
        DotBelowDigits(a[1..], b[1..], x, y);
      }
    }
  }

  /** The order the listing is meant to have: by eq_id, then by report number. */
  predicate Before(x: FileName, y: FileName) {
    LexLess(x.eqID, y.eqID) || (x.eqID == y.eqID && x.warnNum < y.warnNum)
  }

  lemma LessIsLexicographic(a: string, b: string)
    requires Accepted(a) && Accepted(b)
    ensures LessEEWFile(a, b) <==> Before(SplitEEWName(a).value, SplitEEWName(b).value)
  {
    var i, m := AcceptedShape(a);
    var j, n := AcceptedShape(b);
    LexTotal(i, j);
    if i != j {
      DotBelowDigits(i, j, m, n);
    }
  }

  lemma BeforeIsTransitive(x: FileName, y: FileName, z: FileName)
    requires Before(x, y) && Before(y, z)
    ensures Before(x, z)
  {
    if LexLess(x.eqID, y.eqID) && LexLess(y.eqID, z.eqID) {
      LexTransitive(x.eqID, y.eqID, z.eqID);
    }
  }

  /** On accepted names lessEEWFile is a strict weak order, as sort.Slice needs; names that it
      does not tell apart have the same eq_id and number. */
  lemma LessIsStrictWeakOrder(a: string, b: string, c: string)
    requires Accepted(a) && Accepted(b) && Accepted(c)
    ensures !LessEEWFile(a, a)
    ensures LessEEWFile(a, b) ==> !LessEEWFile(b, a)
    ensures LessEEWFile(a, b) && LessEEWFile(b, c) ==> LessEEWFile(a, c)
    ensures !LessEEWFile(a, b) && !LessEEWFile(b, a) <==> SplitEEWName(a) == SplitEEWName(b)
  {
    LessIsLexicographic(a, a);
    LessIsLexicographic(a, b);
    LessIsLexicographic(b, a);
    LessIsLexicographic(b, c);
    LessIsLexicographic(a, c);
    hide SplitEEWName, LessEEWFile;
    var x, y, z := SplitEEWName(a).value, SplitEEWName(b).value, SplitEEWName(c).value;
    LexTotal(x.eqID, x.eqID);
    LexTotal(x.eqID, y.eqID);
    if Before(x, y) && Before(y, z) {
      BeforeIsTransitive(x, y, z);
    }
  }

  lemma CycleNames()
    ensures SplitEEWName("1.9") == Some(FileName("1", 9))
    ensures SplitEEWName("1.10") == Some(FileName("1", 10))
  {
    SplitInvertsNaming("1", Decimal(9));
    SplitInvertsNaming("1", Decimal(10));
    assert NameOf("1", Decimal(9)) == "1.9" && NameOf("1", Decimal(10)) == "1.10";
  }

  lemma CycleIntruder()
    ensures !Accepted("1.5x")
  {
    DotIsFirst("1", "5x");
    assert NameOf("1", "5x") == "1.5x";
    assert !IsDigit("5x"[1]);
  }

  lemma CycleStrings()
    ensures LexLess("1.10", "1.5x") && LexLess("1.5x", "1.9")
  {
    assert "1.10"[1..] == ".10" && "1.5x"[1..] == ".5x" && "1.9"[1..] == ".9";
    assert ".10"[1..] == "10" && ".5x"[1..] == "5x" && ".9"[1..] == "9";
  }

  /** Off that domain it is not: three names in a cycle. So the filter before the sort is
      needed. */
  lemma LessCanCycle()
    ensures LessEEWFile("1.9", "1.10") && LessEEWFile("1.10", "1.5x") && LessEEWFile("1.5x", "1.9")
    ensures Accepted("1.9") && Accepted("1.10") && !Accepted("1.5x")
  {
    hide SplitEEWName, LexLess;
    CycleNames();
    CycleIntruder();
    CycleStrings();
  }

  predicate SortedNames(names: seq<string>) {
    forall i, j :: 0 <= i < j < |names| ==> !LessEEWFile(names[j], names[i])
  }

  /** However sort.Slice orders accepted names, the reports of one earthquake stand together
      and their numbers do not decrease. */
  lemma SortedListing(names: seq<string>, i: nat, j: nat, k: nat)
    requires SortedNames(names) && forall n :: 0 <= n < |names| ==> Accepted(names[n])
    requires i < j < k < |names|
    ensures
      var x, y, z := Key(names[i]), Key(names[j]), Key(names[k]);
      && (x.eqID == z.eqID ==> y.eqID == x.eqID)
      && (x.eqID == y.eqID ==> x.warnNum <= y.warnNum)
  {
    assert Accepted(names[i]) && Accepted(names[j]) && Accepted(names[k]);
    LessIsLexicographic(names[j], names[i]);
    LessIsLexicographic(names[k], names[j]);
    hide SplitEEWName, LessEEWFile;
    LexTotal(Key(names[i]).eqID, Key(names[j]).eqID);
    assert !LessEEWFile(names[j], names[i]) && !LessEEWFile(names[k], names[j]);
  }

  // ---------- paths ----------

  /** A path by what stands between its slashes: "./eewlog/" is Path(false, [".", "eewlog", ""]). */
  datatype Path = Path(rooted: bool, parts: seq<string>)

  /** filepath.Clean's treatment of one part, after those `done`. */
  function Push(rooted: bool, done: seq<string>, part: string): seq<string> {
    if part == "" || part == "." then done
    else if part != ".." then done + [part]
    else if done != [] && done[|done| - 1] != ".." then done[..|done| - 1]
    else if rooted then done
    else done + [part]
  }

  function Walk(rooted: bool, done: seq<string>, parts: seq<string>): seq<string> {
    if parts == [] then done
    else Push(rooted, Walk(rooted, done, parts[..|parts| - 1]), parts[|parts| - 1])
  }

  /** filepath.Clean. */
  function Cleaned(p: Path): Path {
    Path(p.rooted, Walk(p.rooted, [], p.parts))
  }

  /** filepath.Join. */
  function Join(dir: Path, names: seq<string>): Path {
    Cleaned(Path(dir.rooted, dir.parts + names))
  }

  /** filepath.Abs; `cwd` are the parts of the working directory. */
  function Abs(cwd: seq<string>, p: Path): Path {
    Cleaned(Path(true, if p.rooted then p.parts else cwd + p.parts))
  }

  function Slashed(parts: seq<string>): string {
    if parts == [] then ""
    else if |parts| == 1 then parts[0]
    else Slashed(parts[..|parts| - 1]) + "/" + parts[|parts| - 1]
  }

  /** A cleaned path as a string. */
  function Rendered(p: Path): string {
    if p.rooted then "/" + Slashed(p.parts) else if p.parts == [] then "." else Slashed(p.parts)
  }

  /** The directories that a file is kept in, below the archive's own. */
  function Home(eqID: string): seq<string> {
    if |eqID| >= 8 then [eqID[0..4], eqID[4..6], eqID[6..8]] else []
  }

  function FinalPath(dir: Path, eqID: string, warnNum: int): Path {
    var name := eqID + "." + Signed(warnNum);
    if |eqID| >= 8 then Join(dir, [eqID[0..4], eqID[4..6], eqID[6..8], name])
    else Join(dir, ["", "", "", name])
  }

  /** `^\d{14}\.\d{1,4}$`. */
  predicate IsDetailName(name: string) {
    && 16 <= |name| <= 19
    && AllDigits(name[..14]) && name[14] == '.' && AllDigits(name[15..])
  }

  /** None for an error. */
  function TelegramPath(cwd: seq<string>, dataDir: Path, name: string): Option<Path> {
    if |name| < 8 then None
    else
      var full := Join(dataDir, [name[0..4], name[4..6], name[6..8], name]);
      if Rendered(Abs(cwd, dataDir)) <= Rendered(Abs(cwd, full)) then Some(full) else None
  }

  // ---------- cleaning ----------

  /** A part that cleaning leaves alone. */
  predicate IsName(part: string) {
    part != "" && part != "." && part != ".."
  }

  predicate AreNames(parts: seq<string>) {
    forall i :: 0 <= i < |parts| ==> IsName(parts[i])
  }

  lemma {:induction false} WalkAppend(rooted: bool, done: seq<string>, a: seq<string>, b: seq<string>)
    ensures Walk(rooted, done, a + b) == Walk(rooted, Walk(rooted, done, a), b)
    decreases |b|
  {
    hide Push;
    if b == [] {
      assert a + b == a;
    } else {
      assert (a + b)[..|a + b| - 1] == a + b[..|b| - 1];
      WalkAppend(rooted, done, a, b[..|b| - 1]);
    }
  }

  lemma {:induction false} WalkNames(rooted: bool, done: seq<string>, names: seq<string>)
    requires AreNames(names)
    ensures Walk(rooted, done, names) == done + names
  {
    if names == [] {
      assert done + names == done;
    } else {
      var n := |names| - 1;
      WalkNames(rooted, done, names[..n]);
      assert IsName(names[n]);
      assert names == names[..n] + [names[n]];
    }
  }

  /** From the root only names are left. */
  lemma {:induction false} RootedNames(parts: seq<string>)
    ensures AreNames(Walk(true, [], parts))
  {
    if parts != [] {
      RootedNames(parts[..|parts| - 1]);
    }
  }

  predicate AreSettled(parts: seq<string>) {
    forall i :: 0 <= i < |parts| ==> IsName(parts[i]) || parts[i] == ".."
  }

  /** From anywhere else also "..", but neither "" nor ".". */
  lemma {:induction false} RelativeParts(parts: seq<string>)
    ensures AreSettled(Walk(false, [], parts))
  {
    if parts != [] {
      RelativeParts(parts[..|parts| - 1]);
    }
  }

  /** A relative path may be cleaned before it is resolved. */
  lemma {:induction false} WalkCleaned(done: seq<string>, parts: seq<string>)
    ensures Walk(true, done, Walk(false, [], parts)) == Walk(true, done, parts)
  {
    if parts != [] {
      var front, last := parts[..|parts| - 1], parts[|parts| - 1];
      WalkCleaned(done, front);
      RelativeParts(front);
      var c := Walk(false, [], front);
      hide Walk;
      WalkLast(false, [], parts);
      WalkLast(true, done, parts);
      if last == ".." && c != [] && c[|c| - 1] != ".." {
        WalkLast(true, done, c);
      } else if last != "" && last != "." {
        WalkLast(true, done, c + [last]);
        assert (c + [last])[..|c|] == c;
      }
    }
  }

  lemma WalkLast(rooted: bool, done: seq<string>, parts: seq<string>)
    requires parts != []
    ensures Walk(rooted, done, parts)
            == Push(rooted, Walk(rooted, done, parts[..|parts| - 1]), parts[|parts| - 1])
  {}

  lemma JoinNames(dir: Path, names: seq<string>)
    requires AreNames(names)
    ensures Join(dir, names) == Path(dir.rooted, Cleaned(dir).parts + names)
  {
    WalkAppend(dir.rooted, [], dir.parts, names);
    WalkNames(dir.rooted, Walk(dir.rooted, [], dir.parts), names);
  }

  /** What is joined to a directory is found under the directory when both are resolved. */
  lemma AbsOfJoin(cwd: seq<string>, dir: Path, names: seq<string>)
    requires AreNames(names)
    ensures Abs(cwd, Join(dir, names)) == Path(true, Abs(cwd, dir).parts + names)
  {
    hide Walk, Push;
    JoinNames(dir, names);
    var c := Walk(dir.rooted, [], dir.parts);
    if dir.rooted {
      RootedNames(dir.parts);
      WalkAppend(true, [], c, names);
      WalkNames(true, [], c);
      assert [] + c == c;
      WalkNames(true, c, names);
    } else {
      var base := Walk(true, [], cwd);
      assert cwd + (c + names) == cwd + c + names;
      WalkAppend(true, [], cwd + c, names);
      WalkAppend(true, [], cwd, c);
      WalkAppend(true, [], cwd, dir.parts);
      WalkCleaned(base, dir.parts);
      WalkNames(true, Walk(true, base, c), names);
    }
  }

  lemma {:induction false} SlashedGrows(a: seq<string>, b: seq<string>)
    ensures Slashed(a) <= Slashed(a + b)
    decreases |b|
  {
    if b == [] {
      assert a + b == a;
    } else {
      SlashedGrows(a, b[..|b| - 1]);
      assert (a + b)[..|a + b| - 1] == a + b[..|b| - 1];
    }
  }

  // ---------- where the viewer looks ----------

  lemma DateNames(eqID: string)
    requires Digits(eqID, 14)
    ensures AreNames(Home(eqID)) && |Home(eqID)| == 3
  {
    assert IsDigit(eqID[0]) && IsDigit(eqID[4]) && IsDigit(eqID[6]);
    var y, m, d := eqID[0..4], eqID[4..6], eqID[6..8];
    assert y[0] == eqID[0] && m[0] == eqID[4] && d[0] == eqID[6];
  }

  /** The check that the resolved path stays under the data directory never fails for a name
      the viewer accepts, whatever the data directory; and it does lie under it. */
  lemma DetailPathStaysInside(cwd: seq<string>, dataDir: Path, name: string)
    requires IsDetailName(name)
    ensures
      var names := [name[0..4], name[4..6], name[6..8], name];
      && TelegramPath(cwd, dataDir, name) == Some(Join(dataDir, names))
      && Abs(cwd, Join(dataDir, names)) == Path(true, Abs(cwd, dataDir).parts + names)
  {
    DetailParts(name);
    hide IsDetailName, IsName, Walk, Slashed, Abs, Join;
    var names := [name[0..4], name[4..6], name[6..8], name];
    AbsOfJoin(cwd, dataDir, names);
    AbsRooted(cwd, dataDir);
    SlashedGrows(Abs(cwd, dataDir).parts, names);
  }

  lemma DetailParts(name: string)
    requires IsDetailName(name)
    ensures AreNames([name[0..4], name[4..6], name[6..8], name])
  {
    var eqID := name[..14];
    DateNames(eqID);
    assert eqID[0..4] == name[0..4] && eqID[4..6] == name[4..6] && eqID[6..8] == name[6..8];
    var h := Home(eqID);
    assert h[0] == name[0..4] && h[1] == name[4..6] && h[2] == name[6..8];
    assert |name| > 2;
  }

  lemma AbsRooted(cwd: seq<string>, p: Path)
    ensures Abs(cwd, p).rooted
  {}

  lemma {:induction false} DetailNameOf(eqID: string, n: nat)
    requires Digits(eqID, 14) && n <= 9999
    ensures IsDetailName(NameOf(eqID, Decimal(n)))
  {
    DecimalLength(n);
    var s := NameOf(eqID, Decimal(n));
    assert s[..14] == eqID && s[15..] == Decimal(n);
  }

  /** What the daemon archives the viewer can read back: whatever bytes were decoded, the name
      it writes is one the viewer accepts, it splits into the same eq_id and number, and the
      viewer's path is the writer's path. */
  lemma ArchiveRoundTrip(t: Tables, raw: string, cwd: seq<string>, dir: Path)
    requires Decoded(t, raw).report.eqID != ""
    ensures
      var r := Decoded(t, raw).report;
      var name := NameOf(r.eqID, Signed(r.warnNum));
      && IsDetailName(name)
      && SplitEEWName(name) == Some(FileName(r.eqID, r.warnNum))
      && TelegramPath(cwd, dir, name) == Some(FinalPath(dir, r.eqID, r.warnNum))
  {
    hide Decoded, SplitEEWName, IsDetailName, TelegramPath, Join;
    DecodedRanges(t, raw);
    var r := Decoded(t, raw).report;
    var num := Decimal(r.warnNum);
    var name := NameOf(r.eqID, num);
    DetailNameOf(r.eqID, r.warnNum);
    SplitInvertsNaming(r.eqID, num);
    DetailPathStaysInside(cwd, dir, name);
    assert name[0..4] == r.eqID[0..4] && name[4..6] == r.eqID[4..6] && name[6..8] == r.eqID[6..8];
  }

  // ---------- different files for different reports ----------

  /** An eq_id as the decoder gives it. */
  predicate IsEqID(eqID: string) {
    eqID == "" || Digits(eqID, 14)
  }

  lemma NameIsName(eqID: string, n: nat)
    requires IsEqID(eqID)
    ensures IsName(NameOf(eqID, Decimal(n)))
  {
    var s := NameOf(eqID, Decimal(n));
    assert IsDigit(s[|s| - 1]) by {
      assert s[|s| - 1] == Decimal(n)[|Decimal(n)| - 1];
    }
  }

  /** A file lies in its home under the archive's directory; without an eq_id that is the
      directory itself. */
  lemma FinalPathIsHome(dir: Path, eqID: string, n: nat)
    requires IsEqID(eqID)
    ensures FinalPath(dir, eqID, n)
            == Path(dir.rooted, Cleaned(dir).parts + Home(eqID) + [NameOf(eqID, Decimal(n))])
  {
    var name := NameOf(eqID, Decimal(n));
    NameIsName(eqID, n);
    hide IsName;
    if eqID == "" {
      NoParts(dir, name);
      JoinNames(dir, [name]);
      assert Cleaned(dir).parts + [] == Cleaned(dir).parts;
    } else {
      DateNames(eqID);
      var names := Home(eqID) + [name];
      JoinNames(dir, names);
      assert names == [eqID[0..4], eqID[4..6], eqID[6..8], name];
      assert Cleaned(dir).parts + names == Cleaned(dir).parts + Home(eqID) + [name];
    }
  }

  lemma NoParts(dir: Path, name: string)
    ensures Join(dir, ["", "", "", name]) == Join(dir, [name])
  {
    var done := Walk(dir.rooted, [], dir.parts);
    WalkAppend(dir.rooted, [], dir.parts, ["", "", "", name]);
    WalkAppend(dir.rooted, [], dir.parts, [name]);
    WalkAppend(dir.rooted, done, ["", "", ""], [name]);
    assert ["", "", ""] + [name] == ["", "", "", name];
    WalkAppend(dir.rooted, done, ["", ""], [""]);
    WalkAppend(dir.rooted, done, [""], [""]);
    assert ["", ""] + [""] == ["", "", ""] && [""] + [""] == ["", ""];
  }

  lemma NameInjective(a: string, m: nat, b: string, n: nat)
    requires AllDigits(a) && AllDigits(b)
    requires NameOf(a, Decimal(m)) == NameOf(b, Decimal(n))
    ensures a == b && m == n
  {
    DotIsFirst(a, Decimal(m));
    DotIsFirst(b, Decimal(n));
    DecimalInjective(m, n);
  }

  /** Different reports get different files. */
  lemma PathsAreDistinct(dir: Path, a: string, m: nat, b: string, n: nat)
    requires IsEqID(a) && IsEqID(b)
    ensures FinalPath(dir, a, m) == FinalPath(dir, b, n) <==> (a == b && m == n)
  {
    hide FinalPath, NameOf, Decimal, AllDigits, Home;
    FinalPathIsHome(dir, a, m);
    FinalPathIsHome(dir, b, n);
    if FinalPath(dir, a, m) == FinalPath(dir, b, n) {
      var p := FinalPath(dir, a, m).parts;
      assert p[|p| - 1] == NameOf(a, Decimal(m)) == NameOf(b, Decimal(n));
      NameInjective(a, m, b, n);
    }
  }
}
