/** Stripping, said of the characters of a text. */
module TextLaws {
  import opened Text

  const SPACES: set<int> := {
    9, 10, 11, 12, 13, 28, 29, 30, 31, 32, 0x85, 0xa0, 0x1680,
    0x2000, 0x2001, 0x2002, 0x2003, 0x2004, 0x2005, 0x2006, 0x2007, 0x2008, 0x2009, 0x200a,
    0x2028, 0x2029, 0x202f, 0x205f, 0x3000}

  lemma SpacesAre(c: char)
    ensures IsSpace(c) <==> c as int in SPACES
  {
  }

  /** The text is its core between white space, and the core has none at its ends. */
  ghost predicate Pads(before: string, core: string, after: string) {
    && (forall c <- before :: c as int in SPACES)
    && (forall c <- after :: c as int in SPACES)
    && (core != "" ==> core[0] as int !in SPACES && core[|core| - 1] as int !in SPACES)
  }

  ghost predicate CoreOf(text: string, core: string) {
    exists before: string, after: string :: text == before + core + after && Pads(before, core, after)
  }

  /** Stripping finds the core, and there is no other. */
  lemma StripIsCore(text: string, core: string)
    ensures CoreOf(text, core) <==> core == Strip(text)
  {
    if before: string, after: string :| text == before + core + after && Pads(before, core, after) {
      SpacesOnly(before);
      SpacesOnly(after);
      StripLeftPadded(before, core + after);
      assert text == before + (core + after);
      StripRightPadded(core, after);
      if core == "" {
        assert core + after == after;
        StripLeftPadded(after, "");
        assert after + "" == after;
      } else {
        SpacesAre(core[0]);
        SpacesAre(core[|core| - 1]);
        assert (core + after)[0] == core[0];
      }
    }
    StripLeavesCore(text);
  }

  lemma StripLeavesCore(text: string)
    ensures CoreOf(text, Strip(text))
  {
    var before, after := StripDecomposes(text);
    StripTrims(text);
    var core := Strip(text);
    forall c | c in before || c in after || (core != "" && (c == core[0] || c == core[|core| - 1]))
      ensures IsSpace(c) <==> c as int in SPACES
    {
      SpacesAre(c);
    }
    assert forall c <- before :: c in before + after;
    assert forall c <- after :: c in before + after;
    assert Pads(before, core, after);
  }

  lemma SpacesOnly(s: string)
    requires forall c <- s :: c as int in SPACES
    ensures forall c <- s :: IsSpace(c)
  {
    forall c | c in s ensures IsSpace(c) {
      SpacesAre(c);
    }
  }

  lemma {:induction false} StripLeftPadded(before: string, rest: string)
    requires forall c <- before :: IsSpace(c)
    ensures StripLeft(before + rest) == StripLeft(rest)
  {
    if before == "" {
      assert before + rest == rest;
    } else {
      assert before[0] in before && (before + rest)[1..] == before[1..] + rest;
      StripLeftPadded(before[1..], rest);
    }
  }

  lemma {:induction false} StripRightPadded(core: string, after: string)
    requires forall c <- after :: IsSpace(c)
    ensures StripRight(core + after) == StripRight(core)
  {
    if after == "" {
      assert core + after == core;
    } else {
      var last := |after| - 1;
      assert after[last] in after && (core + after)[..|core| + last] == core + after[..last];
      StripRightPadded(core, after[..last]);
    }
  }
}
