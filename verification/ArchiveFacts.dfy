/** Names, order and paths of the archive, spelled out (internal/eewlog/store.go,
    internal/eewview/list.go, internal/eewview/detail.go). */
module ArchiveFacts {
  import opened Text
  import opened DecoderFacts
  import opened Archive

  // ---------- names ----------

  /** A name is split if and only if it is two numbers joined by a dot, the second of which fits 64 bits. */
  lemma NamesSplit(name: string, eqID: string, n: int)
    ensures SplitEEWName(name) == Some(FileName(eqID, n)) <==>
              exists num: string ::
                && name == eqID + "." + num && eqID != "" && num != "" && AllDigits(eqID) && AllDigits(num)
                && n == Value(num) <= 9223372036854775807
  {
    hide Value;
    if SplitEEWName(name) == Some(FileName(eqID, n)) {
      var id, num := AcceptedShape(name);
      SplitInvertsNaming(id, num);
      hide SplitEEWName;
      assert name == eqID + "." + num && n == Value(num);
    }
    if num: string :|
      && name == eqID + "." + num && eqID != "" && num != "" && AllDigits(eqID) && AllDigits(num)
      && n == Value(num) <= 9223372036854775807
    {
      SplitInvertsNaming(eqID, num);
    }
  }

  /** The names that have a page of their own: fourteen digits, a dot, and one to four digits. */
  lemma DetailNameMeans(name: string)
    ensures IsDetailName(name) <==>
              exists eqID: string, num: string ::
                name == eqID + "." + num && Digits(eqID, 14) && AllDigits(num) && 1 <= |num| <= 4
  {
    if IsDetailName(name) {
      var eqID, num := name[..14], name[15..];
      assert name == eqID + "." + num;
      assert Digits(eqID, 14);
    }
    if eqID: string, num: string :|
      name == eqID + "." + num && Digits(eqID, 14) && AllDigits(num) && 1 <= |num| <= 4
    {
      assert name[..14] == eqID && name[15..] == num;
    }
  }

  // ---------- order ----------

  /** Strings compare by their first difference; a proper prefix comes first. */
  lemma {:induction false} LexLessMeans(a: string, b: string)
    ensures LexLess(a, b) <==>
              exists k: nat ::
                && k <= |a| && k < |b| && a[..k] == b[..k]
                && (k < |a| ==> a[k] < b[k])
  {
    if a == "" || b == "" || a[0] != b[0] {
      if LexLess(a, b) {
        assert a[..0] == b[..0];
      }
      forall k: nat | k <= |a| && k < |b| && a[..k] == b[..k]
        ensures k == 0
      {}
    } else {
      var x, y := a[1..], b[1..];
      LexLessMeans(x, y);
      if k: nat :| k <= |x| && k < |y| && x[..k] == y[..k] && (k < |x| ==> x[k] < y[k]) {
        assert a[..k + 1] == [a[0]] + x[..k] && b[..k + 1] == [b[0]] + y[..k];
        assert k + 1 < |a| ==> a[k + 1] < b[k + 1];
      }
      if k: nat :| k <= |a| && k < |b| && a[..k] == b[..k] && (k < |a| ==> a[k] < b[k]) {
        assert k > 0;
        assert x[..k - 1] == a[..k][1..] && y[..k - 1] == b[..k][1..];
        assert k - 1 < |x| ==> x[k - 1] < y[k - 1];
      }
    }
  }

  /** In a listing that sort.Slice has left in order, earlier entries have smaller eq_ids, as strings, or
      the same and a report number that is no larger. */
  lemma ListingAscends(names: seq<string>, i: nat, j: nat, x: string, p: string, y: string, q: string)
    requires i < j < |names| && !LessEEWFile(names[j], names[i])
    requires names[i] == x + "." + p && names[j] == y + "." + q
    requires x != "" && p != "" && y != "" && q != ""
    requires AllDigits(x) && AllDigits(p) && AllDigits(y) && AllDigits(q)
    requires Value(p) <= 9223372036854775807 && Value(q) <= 9223372036854775807
    ensures if x == y then Value(p) <= Value(q) else LexLess(x, y)
  {
    hide Value, LexLess, LessEEWFile;
    SplitInvertsNaming(x, p);
    SplitInvertsNaming(y, q);
    hide SplitEEWName;
    LessIsLexicographic(names[j], names[i]);
    LexTotal(x, y);
  }

  // ---------- paths ----------

  /** A part "" or "." vanishes; a name and a ".." after it cancel. */
  lemma CleanDrops(rooted: bool, a: seq<string>, b: seq<string>, name: string)
    requires name != "" && name != "." && name != ".."
    ensures Cleaned(Path(rooted, a + [""] + b)) == Cleaned(Path(rooted, a + b))
    ensures Cleaned(Path(rooted, a + ["."] + b)) == Cleaned(Path(rooted, a + b))
    ensures Cleaned(Path(rooted, a + [name, ".."] + b)) == Cleaned(Path(rooted, a + b))
  {
    var done := Walk(rooted, [], a);
    WalkAppend(rooted, [], a, b);
    WalkOne(rooted, done, "");
    WalkOne(rooted, done, ".");
    WalkOne(rooted, done, name);
    WalkOne(rooted, done + [name], "..");
    hide Walk;
    WalkAppend(rooted, [], a + [""], b);
    WalkAppend(rooted, [], a, [""]);
    WalkAppend(rooted, [], a + ["."], b);
    WalkAppend(rooted, [], a, ["."]);
    WalkAppend(rooted, [], a + [name, ".."], b);
    WalkAppend(rooted, [], a, [name, ".."]);
    assert [name] + [".."] == [name, ".."];
    WalkAppend(rooted, done, [name], [".."]);
    assert (done + [name])[..|done|] == done;
  }

  lemma WalkOne(rooted: bool, done: seq<string>, part: string)
    ensures Walk(rooted, done, [part]) == Push(rooted, done, part)
  {
    assert [part][..0] == [];
  }

  /** Above the root there is nothing; below any other place a leading ".." stays. */
  lemma CleanAbove(b: seq<string>, ups: nat, names: seq<string>)
    requires AreNames(names)
    ensures Cleaned(Path(true, [".."] + b)) == Cleaned(Path(true, b))
    ensures Cleaned(Path(false, seq(ups, _ => "..") + names)) == Path(false, seq(ups, _ => "..") + names)
    ensures Cleaned(Path(true, names)) == Path(true, names)
  {
    WalkOne(true, [], "..");
    WalkAppend(true, [], [".."], b);
    UpsStay(ups);
    var up := seq(ups, _ => "..");
    WalkAppend(false, [], up, names);
    WalkNames(false, up, names);
    WalkNames(true, [], names);
    assert [] + names == names;
  }

  lemma {:induction false} UpsStay(ups: nat)
    ensures Walk(false, [], seq(ups, _ => "..")) == seq(ups, _ => "..")
  {
    var up: seq<string> := seq(ups, _ => "..");
    if ups > 0 {
      UpsStay(ups - 1);
      assert up[..ups - 1] == seq(ups - 1, _ => "..");
      assert up == up[..ups - 1] + [".."];
    }
  }

  /** Where a telegram is archived: under the directories of its date, or without an eq_id in the data
      directory itself, in a file named by eq_id and report number. */
  lemma FilesAt(dir: Path, eqID: string, n: nat)
    requires eqID == "" || Digits(eqID, 14)
    ensures
      var at, name := FinalPath(dir, eqID, n), eqID + "." + Decimal(n);
      && at.rooted == dir.rooted
      && at.parts == Cleaned(dir).parts
                     + if eqID == "" then [name] else [eqID[0..4], eqID[4..6], eqID[6..8], name]
  {
    hide FinalPath, Cleaned, Decimal;
    FinalPathIsHome(dir, eqID, n);
    var base, name := Cleaned(dir).parts, eqID + "." + Decimal(n);
    if eqID == "" {
      assert base + [] + [name] == base + [name];
    } else {
      assert base + [eqID[0..4], eqID[4..6], eqID[6..8]] + [name]
          == base + [eqID[0..4], eqID[4..6], eqID[6..8], name];
    }
  }
}
