/** The INSTREAM conversation byte by byte, and a reply character by character. */
module ScanLaws {
  import opened Wrappers
  import opened Text
  import opened Base64Url
  import opened ClamAv

  // ---------------------------------------------------------------------------------------------
  // What is sent
  // ---------------------------------------------------------------------------------------------

  /** The command is the ten bytes of "zINSTREAM" and a NUL. */
  lemma GreetingSpells(word: string)
    requires word == "zINSTREAM"
    ensures |GREETING| == |word| + 1 && GREETING[|word|] == 0
    ensures forall i | 0 <= i < |word| :: GREETING[i] == word[i] as int
  {
  }

  /** Four digits in base 256, the most significant first. */
  lemma LengthSpells(n: nat)
    requires n < 0x1_0000_0000
    ensures var b := BigEndian(n);
            |b| == 4 && n == ((b[0] as int * 256 + b[1]) * 256 + b[2]) * 256 + b[3]
  {
    BigEndianRoundTrip(n);
  }

  // ---------------------------------------------------------------------------------------------
  // What is received
  // ---------------------------------------------------------------------------------------------

  predicate Terminates(segment: seq<Byte>) {
    exists i: nat | i < |segment| :: segment[i] == 0 || segment[i] == 10
  }

  lemma TerminatesMeans(segment: seq<Byte>)
    ensures EndsReply(segment) <==> Terminates(segment)
  {
    if 0 in segment {
      var i :| 0 <= i < |segment| && segment[i] == 0;
    }
    if 10 in segment {
      var i :| 0 <= i < |segment| && segment[i] == 10;
    }
  }

  /**
   * Receiving goes on while segments come that are neither empty nor hold a NUL or a line feed; a segment that
   * does hold one is the last one kept, an empty one is not kept.
   */
  lemma {:induction false} GatherExactly(segments: seq<seq<Byte>>, n: nat)
    requires n <= |segments|
    requires forall i | 0 <= i < n :: segments[i] != [] && !Terminates(segments[i])
    requires n == |segments| || segments[n] == [] || Terminates(segments[n])
    ensures Gather(segments) == Concat(if n < |segments| then segments[..n + 1] else segments)
  {
    if segments == [] {
    } else {
      TerminatesMeans(segments[0]);
      var kept := if n < |segments| then segments[..n + 1] else segments;
      ConcatFirst(kept);
      if n == 0 {
        assert kept[1..] == [];
      } else {
        GatherExactly(segments[1..], n - 1);
        assert kept[1..] == if n < |segments| then segments[1..][..n] else segments[1..];
      }
    }
  }

  /** Of the bytes received only the NULs are dropped. */
  lemma NulDropped(b: Byte)
    ensures WithoutNul([]) == []
    ensures WithoutNul([b]) == if b == 0 then [] else [b]
  {
    assert [b][1..] == [];
  }

  lemma {:induction false} NulsDropped(bytes: seq<Byte>, more: seq<Byte>)
    ensures WithoutNul(bytes + more) == WithoutNul(bytes) + WithoutNul(more)
  {
    if bytes == [] {
      assert bytes + more == more;
    } else {
      var all, rest := bytes + more, bytes[1..];
      assert all[0] == bytes[0] && all[1..] == rest + more;
      NulsDropped(rest, more);
      Associative(if bytes[0] == 0 then [] else [bytes[0]], WithoutNul(rest), WithoutNul(more));
      assert [] + WithoutNul(rest) == WithoutNul(rest);
      assert [] + WithoutNul(rest + more) == WithoutNul(rest + more);
    }
  }

  /** The encoding of ASCII text: one byte a character. */
  lemma {:induction false} BytesSpell(s: string)
    requires forall c <- s :: IsAscii(c)
    ensures |AsciiBytes(s)| == |s| && forall i | 0 <= i < |s| :: AsciiBytes(s)[i] == s[i] as int
  {
    if s == "" {
    } else {
      assert s[0] in s && forall c <- s[1..] :: c in s;
      BytesSpell(s[1..]);
    }
  }

  // ---------------------------------------------------------------------------------------------
  // What it means
  // ---------------------------------------------------------------------------------------------

  /** Upper case is taken of each character on its own. */
  lemma UpperSpells(a: string, b: string, c: char, up: char -> string)
    ensures Upper("", up) == "" && Upper([c], up) == up(c)
    ensures Upper(a + b, up) == Upper(a, up) + Upper(b, up)
  {
    UpperConcat(a, b, up);
  }

  /**
   * The signature of an infected reply. What counts starts after the first colon, without white space around it,
   * or is the whole reply when there is no colon; the last " FOUND" and what follows it are cut off; a blank
   * remainder is no signature.
   */
  lemma SignatureRead(response: string, up: char -> string, colon: nat, marked: string, end: nat)
    requires ParseResponse(response, up).Success? && ParseResponse(response, up).value.Infected?
    requires colon <= |response| && (forall i | 0 <= i < colon :: response[i] != ':')
    requires if colon == |response| then marked == response
             else response[colon] == ':' && marked == Strip(response[colon + 1..])
    requires end <= |marked| && (forall i: nat | end < i :: !OccursAt(marked, " FOUND", i))
    requires if OccursAt(marked, " FOUND", end) then true
             else end == |marked| && (forall i: nat :: !OccursAt(marked, " FOUND", i))
    ensures var named := Strip(marked[..end]);
            ParseResponse(response, up).value.signature == if named == "" then None else Some(named)
  {
    if colon < |response| {
      FirstColon(response[..colon], response[colon + 1..]);
      assert response == response[..colon] + ([':'] + response[colon + 1..]);
    }
    BeforeLastExact(marked, " FOUND", end);
  }

  lemma {:induction false} BeforeLastExact(s: string, mark: string, end: nat)
    requires mark != "" && end <= |s|
    requires forall i: nat | end < i :: !OccursAt(s, mark, i)
    requires !OccursAt(s, mark, end) ==> end == |s| && (forall i: nat :: !OccursAt(s, mark, i))
    ensures BeforeLast(s, mark) == s[..end]
  {
    if |s| < |mark| {
      assert !OccursAt(s, mark, end);
      assert s[..|s|] == s;
    } else if EndsWith(s, mark) {
      assert OccursAt(s, mark, |s| - |mark|);
    } else {
      var short := s[..|s| - 1];
      forall i: nat ensures OccursAt(short, mark, i) <==> OccursAt(s, mark, i) {
        if i + |mark| < |s| {
          assert short[i..i + |mark|] == s[i..i + |mark|];
        }
      }
      BeforeLastExact(short, mark, if end == |s| then |s| - 1 else end);
      assert s[..|s|] == s;
    }
  }
}
