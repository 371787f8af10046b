/** Lists without repetitions, in order of first appearance. */
module Lists {

  ghost predicate Distinct<T(!new)>(s: seq<T>) {
    forall i, j | 0 <= i < j < |s| :: s[i] != s[j]
  }

  function FirstIndex<T(==)>(s: seq<T>, x: T): (i: nat)
    requires x in s
    ensures i < |s| && s[i] == x
    ensures forall j | 0 <= j < i :: s[j] != x
  {
    if s[0] == x then 0 else 1 + FirstIndex(s[1..], x)
  }

  /** d lists items of s in the order in which they first appear in s. */
  ghost predicate InFirstAppearanceOrder<T(!new)>(d: seq<T>, s: seq<T>) {
    && (forall x <- d :: x in s)
    && (forall i, j | 0 <= i < j < |d| :: FirstIndex(s, d[i]) < FirstIndex(s, d[j]))
  }

  /** Keep the first appearance of every item. */
  function Dedup<T(==)>(s: seq<T>): seq<T> {
    if s == [] then []
    else
      var last := |s| - 1;
      var before := Dedup(s[..last]);
      if s[last] in before then before else before + [s[last]]
  }

  lemma {:induction false} DedupExact<T(!new)>(s: seq<T>)
    ensures var d := Dedup(s);
            && Distinct(d)
            && (forall x :: x in d <==> x in s)
            && InFirstAppearanceOrder(d, s)
  {
    if s == [] {
    } else {
      var last := |s| - 1;
      DedupExact(s[..last]);
      var before, d := Dedup(s[..last]), Dedup(s);
      assert forall x :: x in s <==> x in s[..last] || x == s[last];
      forall i, j | 0 <= i < j < |d| ensures FirstIndex(s, d[i]) < FirstIndex(s, d[j]) {
        FirstIndexPrefix(s, last, before[i]);
        if j < |before| {
          FirstIndexPrefix(s, last, before[j]);
        } else {
          assert s[last] !in s[..last];
          assert s[..last][FirstIndex(s[..last], before[i])] == before[i];
        }
      }
    }
  }

  lemma FirstIndexPrefix<T>(s: seq<T>, n: nat, x: T)
    requires n <= |s| && x in s[..n]
    ensures FirstIndex(s, x) == FirstIndex(s[..n], x)
  {
    var a, b := FirstIndex(s, x), FirstIndex(s[..n], x);
    assert s[b] == x;
    assert forall j | 0 <= j <= b :: s[..n][j] == s[j];
  }

  lemma {:induction false} DedupDistinct<T(!new)>(s: seq<T>)
    requires Distinct(s)
    ensures Dedup(s) == s
  {
    if s == [] {
    } else {
      var last := |s| - 1;
      DedupDistinct(s[..last]);
      assert s[last] !in s[..last];
    }
  }

  lemma Rebracket<T>(a: seq<T>, b: seq<T>, c: seq<T>)
    ensures (a + b) + c == a + (b + c)
    ensures [] + b == b
  {
  }
}
