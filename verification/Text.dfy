/** The string operations of the source's language that the other modules rely on. */
module Text {

  /** White space as str.strip() sees it. */
  predicate IsSpace(c: char) {
    var n := c as int;
    || 0x09 <= n <= 0x0d || 0x1c <= n <= 0x20 || n == 0x85 || n == 0xa0 || n == 0x1680
    || 0x2000 <= n <= 0x200a || n == 0x2028 || n == 0x2029 || n == 0x202f || n == 0x205f || n == 0x3000
  }

  predicate IsAscii(c: char) { c as int < 128 }

  predicate Trimmed(s: string) {
    s == "" || (!IsSpace(s[0]) && !IsSpace(s[|s| - 1]))
  }

  predicate EndsWith(s: string, suffix: string) {
    |s| >= |suffix| && s[|s| - |suffix|..] == suffix
  }

  predicate Blank(s: string) { Strip(s) == "" }

  function StripLeft(s: string): string {
    if s == "" || !IsSpace(s[0]) then s else StripLeft(s[1..])
  }

  function StripRight(s: string): string {
    if s == "" || !IsSpace(s[|s| - 1]) then s else StripRight(s[..|s| - 1])
  }

  function Strip(s: string): string { StripRight(StripLeft(s)) }

  lemma {:induction false} StripLeftDecomposes(s: string)
    ensures var r := StripLeft(s);
            && |r| <= |s| && r == s[|s| - |r|..]
            && (forall i | 0 <= i < |s| - |r| :: IsSpace(s[i]))
            && (r == "" || !IsSpace(r[0]))
  {
    if s == "" || !IsSpace(s[0]) {
    } else {
      StripLeftDecomposes(s[1..]);
      SpacesShift(s, |s| - |StripLeft(s)|);
    }
  }

  /** White space at the front of the rest is white space after the first character. */
  lemma SpacesShift(s: string, n: nat)
    requires 0 < n <= |s| && IsSpace(s[0])
    requires forall i | 0 <= i < n - 1 :: IsSpace(s[1..][i])
    ensures forall i | 0 <= i < n :: IsSpace(s[i])
    ensures s[1..][n - 1..] == s[n..]
  {
    forall i | 0 < i < n ensures IsSpace(s[i]) {
      assert s[1..][i - 1] == s[i];
    }
  }

  lemma {:induction false} StripRightDecomposes(s: string)
    ensures var r := StripRight(s);
            && |r| <= |s| && r == s[..|r|]
            && (forall i | |r| <= i < |s| :: IsSpace(s[i]))
            && (r == "" || !IsSpace(r[|r| - 1]))
  {
    if s == "" || !IsSpace(s[|s| - 1]) {
    } else {
      StripRightDecomposes(s[..|s| - 1]);
    }
  }

  lemma StripTrims(s: string)
    ensures Trimmed(Strip(s))
  {
    StripLeftDecomposes(s);
    StripRightDecomposes(StripLeft(s));
  }

  /** Stripping removes white space and nothing else, from both ends. */
  lemma StripDecomposes(s: string) returns (before: string, after: string)
    ensures s == before + Strip(s) + after
    ensures forall c <- before + after :: IsSpace(c)
  {
    var l := StripLeft(s);
    StripLeftDecomposes(s);
    StripRightDecomposes(l);
    var r := StripRight(l);
    before, after := s[..|s| - |l|], l[|r|..];
    forall c | c in before + after ensures IsSpace(c) {
      if c in before {
        var i :| 0 <= i < |before| && before[i] == c;
        assert s[i] == c;
      } else {
        var i :| 0 <= i < |after| && after[i] == c;
        assert l[|r| + i] == c;
      }
    }
  }

  lemma EndsWithMeans(s: string, tail: string)
    ensures EndsWith(s, tail) <==> exists before: string :: s == before + tail
  {
    if EndsWith(s, tail) {
      assert s == s[..|s| - |tail|] + tail;
    }
  }

  lemma StripKeepsTrimmed(s: string)
    requires Trimmed(s)
    ensures Strip(s) == s
  {
  }

  lemma StripIdempotent(s: string)
    ensures Strip(Strip(s)) == Strip(s)
  {
    StripTrims(s);
    StripKeepsTrimmed(Strip(s));
  }

  /** A text between white space is what stripping leaves. */
  lemma {:induction false} StripPadded(before: string, s: string)
    requires Trimmed(s) && s != ""
    requires forall c <- before :: IsSpace(c)
    ensures Strip(before + s) == s
  {
    if before == "" {
      assert before + s == s;
    } else {
      assert before[0] in before;
      assert (before + s)[1..] == before[1..] + s;
      StripPadded(before[1..], s);
    }
  }

  /** s.split(sep) for a one-character separator. */
  function Split(s: string, sep: char): (parts: seq<string>)
    ensures |parts| >= 1
  {
    if s == "" then [""]
    else
      var rest := Split(s[1..], sep);
      if s[0] == sep then [""] + rest else [[s[0]] + rest[0]] + rest[1..]
  }

  /** sep.join(parts) */
  function Join(parts: seq<string>, sep: char): string {
    if parts == [] then ""
    else if |parts| == 1 then parts[0]
    else parts[0] + [sep] + Join(parts[1..], sep)
  }

  lemma {:induction false} JoinSplit(s: string, sep: char)
    ensures Join(Split(s, sep), sep) == s
    ensures forall part <- Split(s, sep) :: sep !in part
  {
    if s == "" {
    } else {
      JoinSplit(s[1..], sep);
      var rest, all := Split(s[1..], sep), Split(s, sep);
      if s[0] == sep {
        assert all[1..] == rest;
      } else {
        assert all[1..] == rest[1..];
        if |rest| > 1 {
          assert Join(all, sep) == [s[0]] + (rest[0] + [sep] + Join(rest[1..], sep));
        }
      }
      assert s == [s[0]] + s[1..];
    }
  }

  lemma {:induction false} SplitUnseparated(part: string, sep: char)
    requires sep !in part
    ensures Split(part, sep) == [part]
  {
    if part == "" {
    } else {
      SplitUnseparated(part[1..], sep);
      assert [part[0]] + part[1..] == part;
      assert Split(part[1..], sep)[1..] == [];
    }
  }

  lemma {:induction false} SplitFirst(part: string, sep: char, rest: string)
    requires sep !in part
    ensures Split(part + [sep] + rest, sep) == [part] + Split(rest, sep)
  {
    var whole := part + [sep] + rest;
    if part == "" {
      assert whole[1..] == rest;
    } else {
      SplitFirst(part[1..], sep, rest);
      assert whole[1..] == part[1..] + [sep] + rest;
      assert [part[0]] + part[1..] == part;
      assert ([part[1..]] + Split(rest, sep))[1..] == Split(rest, sep);
    }
  }

  lemma {:induction false} SplitJoin(parts: seq<string>, sep: char)
    requires |parts| >= 1
    requires forall part <- parts :: sep !in part
    ensures Split(Join(parts, sep), sep) == parts
  {
    if |parts| == 1 {
      SplitUnseparated(parts[0], sep);
    } else {
      SplitJoin(parts[1..], sep);
      SplitFirst(parts[0], sep, Join(parts[1..], sep));
    }
  }
}
