/**
 Permutations of the nine board positions: how the instability shuffle draws
 one (Fisher-Yates, with the random draws passed in) and how it relocates a
 nine-slot array through one.
 */
module Shuffle {

  /** A bijection of the positions 0..8 onto themselves. */
  predicate IsPermutation(m: seq<int>)
  {
    && |m| == 9
    && (forall i :: 0 <= i < 9 ==> 0 <= m[i] < 9)
    && (forall i, j :: 0 <= i < 9 && 0 <= j < 9 && i != j ==> m[i] != m[j])
    && (forall v :: 0 <= v < 9 ==> v in m)
  }

  /** The array the shuffle starts from, `[0, 1, ..., 8]`. */
  function Identity(): (r: seq<int>)
    ensures |r| == 9 && forall i :: 0 <= i < 9 ==> r[i] == i
  {
    [0, 1, 2, 3, 4, 5, 6, 7, 8]
  }

  /**
   The outcomes of `Math.random` as Fisher-Yates consumes them: the step for
   position `i` (taken for i = 8 down to 1) reads `choices[8 - i]`, a value
   `j` with `0 <= j <= i`.
   */
  predicate ValidChoices(choices: seq<int>)
  {
    |choices| == 8 && forall k :: 0 <= k < 8 ==> 0 <= choices[k] <= 8 - k
  }

  /** Exchanges the entries at `i` and `j`. */
  function Swap(a: seq<int>, i: int, j: int): seq<int>
    requires 0 <= i < |a| && 0 <= j < |a|
  {
    a[i := a[j]][j := a[i]]
  }

  /** The Fisher-Yates loop from position `i` down to position 1. */
  function FisherYates(a: seq<int>, i: nat, choices: seq<int>): (r: seq<int>)
    requires |a| == 9 && i <= 8 && ValidChoices(choices)
    ensures multiset(r) == multiset(a)
    decreases i
  {
    if i == 0 then a
    else FisherYates(Swap(a, i, choices[8 - i]), i - 1, choices)
  }

  /** A random permutation of 0..8, drawn by Fisher-Yates from `choices`. */
  function GenerateShuffleMapping(choices: seq<int>): (m: seq<int>)
    requires ValidChoices(choices)
    ensures IsPermutation(m)
  {
    var m := FisherYates(Identity(), 8, choices);
    RearrangedIdentityIsPermutation(m);
    m
  }

  /** Any rearrangement of 0..8 is a permutation. */
  lemma RearrangedIdentityIsPermutation(m: seq<int>)
    requires multiset(m) == multiset(Identity())
    ensures IsPermutation(m)
  {
    assert |m| == |multiset(m)| == 9;
    forall i | 0 <= i < 9
      ensures 0 <= m[i] < 9
    {
      assert m[i] in multiset(Identity());
    }
    forall v | 0 <= v < 9
      ensures v in m
    {
      assert Identity()[v] == v;
      assert v in multiset(m);
    }
    DistinctCountsAtMostOne(Identity());
    forall i, j | 0 <= i < 9 && 0 <= j < 9 && i != j
      ensures m[i] != m[j]
    {
      if m[i] == m[j] {
        RepeatedValueCountsTwice(m, if i < j then i else j, if i < j then j else i);
      }
    }
  }

  /** A value occurring at two positions occurs at least twice in the multiset. */
  lemma RepeatedValueCountsTwice(m: seq<int>, lo: nat, hi: nat)
    requires lo < hi < |m| && m[lo] == m[hi]
    ensures multiset(m)[m[lo]] >= 2
  {
    assert m == m[..hi] + m[hi..];
    assert m[..hi][lo] == m[lo];
    assert m[hi..][0] == m[lo];
  }

  /** A sequence without repetitions holds each value at most once. */
  lemma {:induction false} DistinctCountsAtMostOne(s: seq<int>)
    requires forall i, j :: 0 <= i < j < |s| ==> s[i] != s[j]
    ensures forall v :: multiset(s)[v] <= 1
  {
    if |s| > 0 {
      var init := s[..|s| - 1];
      DistinctCountsAtMostOne(init);
      assert s == init + [s[|s| - 1]];
      assert s[|s| - 1] !in init;
    }
  }

  // ---------------------------------------------------------------------------
  // Relocation

  /** `n` copies of `x`. */
  function Repeat<T>(x: T, n: nat): seq<T>
  {
    seq(n, _ => x)
  }

  /**
   Nine slots initialised to `fill`, after the first `n` rounds of the loop
   that writes `src[i]` into slot `m[i]`.
   */
  function Scatter<T>(m: seq<int>, src: seq<T>, fill: T, n: nat): (r: seq<T>)
    requires IsPermutation(m) && |src| == 9 && n <= 9
    ensures |r| == 9
    ensures forall i :: 0 <= i < n ==> r[m[i]] == src[i]
    ensures forall j :: 0 <= j < 9 && j !in m[..n] ==> r[j] == fill
  {
    if n == 0 then Repeat(fill, 9)
    else
      assert m[..n] == m[..n - 1] + [m[n - 1]];
      Scatter(m, src, fill, n - 1)[m[n - 1] := src[n - 1]]
  }

  /**
   After `n` rounds the slots hold the first `n` source entries plus `9 - n`
   fill values; after nine rounds they hold exactly the source entries.
   */
  lemma {:induction false} ScatterKeepsEntries<T>(m: seq<int>, src: seq<T>, fill: T, n: nat)
    requires IsPermutation(m) && |src| == 9 && n <= 9
    ensures multiset(Scatter(m, src, fill, n)) + multiset(Repeat(fill, n)) == multiset(Repeat(fill, 9)) + multiset(src[..n])
  {
    if n == 0 {
      assert Repeat(fill, 0) == [];
      assert src[..0] == [];
    } else {
      ScatterKeepsEntries(m, src, fill, n - 1);
      var prev := Scatter(m, src, fill, n - 1);
      var next := Scatter(m, src, fill, n);
      FreshSlot(m, n - 1);
      assert prev[m[n - 1]] == fill;
      UpdateMultiset(prev, m[n - 1], src[n - 1]);
      assert src[..n] == src[..n - 1] + [src[n - 1]];
      RepeatStep(fill, n);
      Exchange(multiset(prev), multiset(next), multiset(Repeat(fill, n - 1)), multiset(Repeat(fill, n)),
               multiset(src[..n - 1]), multiset(src[..n]), multiset(Repeat(fill, 9)), fill, src[n - 1]);
    }
  }

  /** Overwriting one entry trades its old value for the new one. */
  lemma UpdateMultiset<T>(s: seq<T>, i: int, v: T)
    requires 0 <= i < |s|
    ensures multiset(s[i := v]) + multiset{s[i]} == multiset(s) + multiset{v}
  {
  }

  /** One more copy of `x`. */
  lemma RepeatStep<T>(x: T, n: nat)
    requires n > 0
    ensures multiset(Repeat(x, n)) == multiset(Repeat(x, n - 1)) + multiset{x}
  {
    assert Repeat(x, n) == Repeat(x, n - 1) + [x];
  }

  /** The slot written in round `k` was not written in an earlier round. */
  lemma FreshSlot(m: seq<int>, k: nat)
    requires IsPermutation(m) && k < 9
    ensures m[k] !in m[..k]
  {
    assert forall i :: 0 <= i < k ==> m[..k][i] == m[i] != m[k];
  }

  /** Bookkeeping of one round: one fill value leaves, one source entry arrives. */
  lemma Exchange<T>(prev: multiset<T>, next: multiset<T>, fills: multiset<T>, fills': multiset<T>,
                    done: multiset<T>, done': multiset<T>, all: multiset<T>, fill: T, v: T)
    requires prev + fills == all + done
    requires next + multiset{fill} == prev + multiset{v}
    requires fills' == fills + multiset{fill}
    requires done' == done + multiset{v}
    ensures next + fills' == all + done'
  {
    forall x
      ensures (next + fills')[x] == (all + done')[x]
    {
      assert (prev + fills)[x] == (all + done)[x];
      assert (next + multiset{fill})[x] == (prev + multiset{v})[x];
    }
  }

  /** Relocating nine entries through a permutation loses and duplicates none. */
  lemma ScatterPermutes<T>(m: seq<int>, src: seq<T>, fill: T)
    requires IsPermutation(m) && |src| == 9
    ensures multiset(Scatter(m, src, fill, 9)) == multiset(src)
  {
    ScatterKeepsEntries(m, src, fill, 9);
    assert src[..9] == src;
    Cancel(multiset(Scatter(m, src, fill, 9)), multiset(Repeat(fill, 9)), multiset(src));
  }
  /** Multiset union cancels. */
  lemma Cancel<T>(a: multiset<T>, b: multiset<T>, c: multiset<T>)
    requires a + b == b + c
    ensures a == c
  {
    forall x ensures a[x] == c[x] {
      assert (a + b)[x] == (b + c)[x];
    }
  }
}
