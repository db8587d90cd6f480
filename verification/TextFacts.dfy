/** What the byte-string primitives do, said without them. */
module TextFacts {
  import opened Text

  // ---------- trimming ----------

  /** The white space of ASCII: tab, line feed, vertical tab, form feed, carriage return, blank. */
  predicate IsWhite(c: char) {
    c as int == 9 || c as int == 10 || c as int == 11 || c as int == 12 || c as int == 13 || c as int == 32
  }

  lemma {:induction false} TrimLeftTakes(s: string) returns (pre: string)
    ensures s == pre + TrimLeftSpace(s) && forall i :: 0 <= i < |pre| ==> IsWhite(pre[i])
    ensures TrimLeftSpace(s) != "" ==> !IsWhite(TrimLeftSpace(s)[0])
  {
    if s != "" && IsSpace(s[0]) {
      var more := TrimLeftTakes(s[1..]);
      pre := [s[0]] + more;
      assert s == [s[0]] + s[1..];
    } else {
      pre := "";
    }
  }

  lemma {:induction false} TrimRightTakes(s: string) returns (post: string)
    ensures s == TrimRightSpace(s) + post && forall i :: 0 <= i < |post| ==> IsWhite(post[i])
    ensures TrimRightSpace(s) != "" ==> !IsWhite(TrimRightSpace(s)[|TrimRightSpace(s)| - 1])
  {
    if s != "" && IsSpace(s[|s| - 1]) {
      var n := |s| - 1;
      var less := TrimRightTakes(s[..n]);
      post := less + [s[n]];
      assert s == s[..n] + [s[n]];
    } else {
      post := "";
    }
  }

  /** Trimming takes white space away at both ends, all of it, and nothing else. */
  lemma TrimTakes(s: string) returns (pre: string, post: string)
    ensures s == pre + TrimSpace(s) + post
    ensures forall i :: 0 <= i < |pre| ==> IsWhite(pre[i])
    ensures forall i :: 0 <= i < |post| ==> IsWhite(post[i])
    ensures
      var r := TrimSpace(s);
      r != "" ==> !IsWhite(r[0]) && !IsWhite(r[|r| - 1])
  {
    pre := TrimLeftTakes(s);
    post := TrimRightTakes(TrimLeftSpace(s));
    var r := TrimSpace(s);
    if r != "" {
      assert r[0] == TrimLeftSpace(s)[0];
    }
  }

  /** The same of the carriage returns at the end of a line. */
  lemma {:induction false} TrimCRTakes(s: string) returns (post: string)
    ensures s == TrimRightCR(s) + post && forall i :: 0 <= i < |post| ==> post[i] as int == 13
    ensures TrimRightCR(s) != "" ==> TrimRightCR(s)[|TrimRightCR(s)| - 1] as int != 13
  {
    if s != "" && s[|s| - 1] == '\r' {
      var n := |s| - 1;
      var less := TrimCRTakes(s[..n]);
      post := less + [s[n]];
      assert s == s[..n] + [s[n]];
    } else {
      post := "";
    }
  }

  lemma ContainsMeans(s: string, sub: string)
    ensures Contains(s, sub) <==> exists pre, post :: s == pre + sub + post
  {
    if i :| 0 <= i <= |s| && OccursAt(s, sub, i) {
      assert s == s[..i] + sub + s[i + |sub|..];
    }
    if pre, post :| s == pre + sub + post {
      assert OccursAt(s, sub, |pre|);
    }
  }

  // ---------- numbers ----------

  /** Digits are read from the left, each with the value of its code above that of '0'. */
  lemma ValueMeans(s: string, c: char)
    requires AllDigits(s) && 48 <= c as int <= 57
    ensures AllDigits(s + [c]) && Value("") == 0 && Value(s + [c]) == 10 * Value(s) + (c as int - 48)
  {
    assert (s + [c])[..|s|] == s;
  }

  lemma {:induction false} DecimalStarts(n: nat)
    ensures n > 0 ==> Decimal(n)[0] as int != 48
  {
    if n >= 10 {
      DecimalStarts(n / 10);
    }
  }

  /** %d prints the digits of a number without leading zeros, a minus sign before a negative one. */
  lemma SignedMeans(n: int)
    ensures
      var digits := if n < 0 then Signed(n)[1..] else Signed(n);
      && (n < 0 ==> Signed(n)[0] == '-')
      && AllDigits(digits) && digits != "" && Value(digits) == (if n < 0 then -n else n)
      && (n != 0 ==> digits[0] as int != 48)
  {
    DecimalStarts(if n < 0 then -n else n);
  }

  /** Atoi takes an optional sign and digits, and gives their value if it fits 64 bits. */
  lemma AtoiMeans(s: string, v: int)
    ensures Atoi(s) == Some(v) <==>
              exists sign, digits ::
                && s == sign + digits && (sign == "" || sign == "+" || sign == "-")
                && digits != "" && AllDigits(digits)
                && v == (if sign == "-" then -(Value(digits) as int) else Value(digits))
                && -9223372036854775808 <= v <= 9223372036854775807
  {
    hide Value;
    if Atoi(s) == Some(v) {
      var signed := s[0] == '-' || s[0] == '+';
      var sign, digits := if signed then s[..1] else "", if signed then s[1..] else s;
      assert s == sign + digits;
      assert signed ==> sign == [s[0]];
    }
    if sign, digits :|
      && s == sign + digits && (sign == "" || sign == "+" || sign == "-")
      && digits != "" && AllDigits(digits)
      && v == (if sign == "-" then -(Value(digits) as int) else Value(digits))
      && -9223372036854775808 <= v <= 9223372036854775807
    {
      assert IsDigit(digits[0]);
      if sign == "" {
        assert s == digits;
      } else {
        assert s[0] == sign[0] && s[1..] == digits;
      }
    }
  }
}
