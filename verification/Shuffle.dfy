/** The sampler's generator and its in-place shuffle. */
module Shuffle {

  // ---------------------------------------------------------------- mulberry32

  const INCREMENT: bv32 := 0x6D2B79F5
  const TWO_32 := 0x1_0000_0000

  /** `Math.imul` keeps the low 32 bits, as multiplication of 32-bit words does. */
  function Mix(s: bv32): bv32 {
    var t := (s ^ (s >> 15)) * (1 | s);
    var u := (t + (t ^ (t >> 7)) * (61 | t)) ^ t;
    u ^ (u >> 14)
  }

  type Word32 = w: int | 0 <= w < TWO_32

  /** A generator: how its state advances and the word it draws from the new state. */
  datatype Generator<!S> = Generator(next: S -> S, word: S -> Word32)

  function Mulberry32(): Generator<bv32> {
    Generator((s: bv32) => s + INCREMENT, (s: bv32) => Mix(s) as int)
  }

  /** `Math.floor(rand() * (i + 1))`, exactly; the product is exact in a double below 2^21 elements. */
  function Pick(u: Word32, i: nat): (j: nat)
    ensures j <= i
  {
    PickInRange(u, i);
    u * (i + 1) / TWO_32
  }

  lemma MixFirst()
    ensures 0xC0FFEE + INCREMENT == 0x6DEC79E3 && Mix(0x6DEC79E3) == 0x056987A7
  {
  }

  lemma MixSecond()
    ensures 0x6DEC79E3 + INCREMENT == 0xDB17F3D8 && Mix(0xDB17F3D8) == 0xAA862F4B
  {
  }

  lemma MixThird()
    ensures 0xDB17F3D8 + INCREMENT == 0x48436DCD && Mix(0x48436DCD) == 0xC7AC34FB
  {
  }

  /** The index is the whole part of the drawn fraction of the `i + 1` places. */
  lemma PickExactly(u: Word32, i: nat)
    ensures Pick(u, i) * 4294967296 <= u * (i + 1) < (Pick(u, i) + 1) * 4294967296
  {
    var whole := u * (i + 1);
    assert whole == whole / 4294967296 * 4294967296 + whole % 4294967296;
  }

  lemma PickInRange(u: Word32, i: nat)
    ensures 0 <= u * (i + 1) / TWO_32 <= i
  {
    assert u * (i + 1) <= (TWO_32 - 1) * (i + 1);
    assert 0 <= u * (i + 1);
  }

  class Rng<S> {
    const generator: Generator<S>
    var state: S

    constructor (generator: Generator<S>, seed: S)
      ensures this.generator == generator && state == seed
    {
      this.generator := generator;
      state := seed;
    }

    method Rand() returns (word: Word32)
      modifies this`state
      ensures state == generator.next(old(state)) && word == generator.word(state)
    {
      state := generator.next(state);
      word := generator.word(state);
    }
  }

  // ---------------------------------------------------------------- the shuffle on values

  function Swap<T>(s: seq<T>, i: nat, j: nat): (r: seq<T>)
    requires i < |s| && j < |s|
    ensures |r| == |s|
  {
    s[i := s[j]][j := s[i]]
  }

  lemma SwapKeepsElements<T>(s: seq<T>, i: nat, j: nat)
    requires i < |s| && j < |s|
    ensures multiset(Swap(s, i, j)) == multiset(s)
  {
  }

  /** The positions chosen for `|choices|, ..., 1`, last one first: position `i` swaps with `choices[i - 1] <= i`. */
  ghost predicate Choices(choices: seq<nat>) {
    forall i :: 0 <= i < |choices| ==> choices[i] <= i + 1
  }

  function ShuffleWith<T>(s: seq<T>, choices: seq<nat>): (r: seq<T>)
    requires Choices(choices) && |choices| < |s|
    ensures |r| == |s|
    decreases |choices|
  {
    if choices == [] then s
    else
      var i := |choices|;
      ShuffleWith(Swap(s, i, choices[i - 1]), choices[..i - 1])
  }

  /** The choices the generator makes from a state. */
  function ChoicesFrom<S>(g: Generator<S>, state: S, i: nat): (r: seq<nat>)
    ensures |r| == i && Choices(r)
    decreases i
  {
    if i == 0 then []
    else ChoicesFrom(g, g.next(state), i - 1) + [Pick(g.word(g.next(state)), i)]
  }

  /** The state after `n` draws. */
  function Advance<S>(g: Generator<S>, state: S, n: nat): S {
    if n == 0 then state else Advance(g, g.next(state), n - 1)
  }

  /** How many words a shuffle of `n` elements draws. */
  function Draws(n: nat): nat {
    if n == 0 then 0 else n - 1
  }

  function Shuffled<S, T>(g: Generator<S>, state: S, s: seq<T>): (r: seq<T>)
    ensures |r| == |s|
  {
    if s == [] then [] else ShuffleWith(s, ChoicesFrom(g, state, |s| - 1))
  }

  /** One turn: the place `i` swaps with the one drawn from the next state; the rest is shuffled below it. */
  lemma TurnExactly<S, T>(g: Generator<S>, state: S, s: seq<T>, i: nat)
    requires 0 < i < |s|
    ensures var next := g.next(state); var j := Pick(g.word(next), i);
            ShuffleWith(s, ChoicesFrom(g, state, i)) ==
            ShuffleWith(s[i := s[j]][j := s[i]], ChoicesFrom(g, next, i - 1))
    ensures ShuffleWith(s, ChoicesFrom(g, state, 0)) == s
  {
    var choices := ChoicesFrom(g, state, i);
    assert choices[..i - 1] == ChoicesFrom(g, g.next(state), i - 1);
  }

  lemma {:induction false} ShufflePermutes<T>(s: seq<T>, choices: seq<nat>)
    requires Choices(choices) && |choices| < |s|
    ensures multiset(ShuffleWith(s, choices)) == multiset(s)
    decreases |choices|
  {
    if choices != [] {
      var i := |choices|;
      SwapKeepsElements(s, i, choices[i - 1]);
      ShufflePermutes(Swap(s, i, choices[i - 1]), choices[..i - 1]);
    }
  }

  /** For every generator and every state of it the result is a permutation. */
  lemma ShuffledPermutes<S, T>(g: Generator<S>, state: S, s: seq<T>)
    ensures multiset(Shuffled(g, state, s)) == multiset(s)
  {
    if s != [] {
      ShufflePermutes(s, ChoicesFrom(g, state, |s| - 1));
    }
  }

  // ---------------------------------------------------------------- every order, exactly once

  ghost predicate NoDuplicates<T>(s: seq<T>) {
    forall i, j :: 0 <= i < j < |s| ==> s[i] != s[j]
  }

  lemma {:induction false} TailFixed<T>(s: seq<T>, choices: seq<nat>, k: nat)
    requires Choices(choices) && |choices| < k < |s|
    ensures ShuffleWith(s, choices)[k] == s[k]
    decreases |choices|
  {
    if choices != [] {
      var i := |choices|;
      assert Swap(s, i, choices[i - 1])[k] == s[k];
      TailFixed(Swap(s, i, choices[i - 1]), choices[..i - 1], k);
    }
  }

  /** The first choice settles the last open position. */
  lemma {:induction false} FirstChoice<T>(s: seq<T>, choices: seq<nat>)
    requires Choices(choices) && 0 < |choices| < |s|
    ensures ShuffleWith(s, choices)[|choices|] == s[choices[|choices| - 1]]
  {
    var i := |choices|;
    TailFixed(Swap(s, i, choices[i - 1]), choices[..i - 1], i);
  }

  lemma SwapKeepsDistinct<T>(s: seq<T>, i: nat, j: nat)
    requires i < |s| && j < |s| && NoDuplicates(s)
    ensures NoDuplicates(Swap(s, i, j))
  {
  }

  /** Different choices give different orders: no order is favoured. */
  lemma {:induction false} ChoicesDetermineOrder<T>(s: seq<T>, a: seq<nat>, b: seq<nat>)
    requires Choices(a) && Choices(b) && |a| == |b| < |s| && NoDuplicates(s)
    requires ShuffleWith(s, a) == ShuffleWith(s, b)
    ensures a == b
    decreases |a|
  {
    if a != [] {
      var i := |a|;
      FirstChoice(s, a);
      FirstChoice(s, b);
      assert a[i - 1] == b[i - 1];
      SwapKeepsDistinct(s, i, a[i - 1]);
      ChoicesDetermineOrder(Swap(s, i, a[i - 1]), a[..i - 1], b[..i - 1]);
      assert a == a[..i - 1] + [a[i - 1]] && b == b[..i - 1] + [b[i - 1]];
    }
  }

  /** Every order that agrees with `s` beyond position `n` is the result of some choices. */
  lemma {:induction false} EveryOrderIsReached<T>(s: seq<T>, target: seq<T>, n: nat) returns (choices: seq<nat>)
    requires n < |s| && multiset(s) == multiset(target) && NoDuplicates(s)
    requires |target| == |s| && forall k :: n < k < |s| ==> s[k] == target[k]
    ensures Choices(choices) && |choices| == n && ShuffleWith(s, choices) == target
    decreases n
  {
    if n == 0 {
      choices := [];
      HeadFollows(s, target);
    } else {
      assert target[n] in multiset(s);
      var j :| 0 <= j < |s| && s[j] == target[n];
      if j > n {
        CountTwice(target, n, j);
        CountOnce(s, j);
        assert false;
      }
      SwapKeepsDistinct(s, n, j);
      SwapKeepsElements(s, n, j);
      var earlier := EveryOrderIsReached(Swap(s, n, j), target, n - 1);
      choices := earlier + [j];
      assert choices[..n - 1] == earlier;
    }
  }

  lemma CountTwice<T>(s: seq<T>, i: nat, j: nat)
    requires i < j < |s| && s[i] == s[j]
    ensures multiset(s)[s[i]] >= 2
  {
    assert s == s[..i] + [s[i]] + s[i + 1..j] + [s[j]] + s[j + 1..];
  }

  lemma CountOnce<T>(s: seq<T>, j: nat)
    requires j < |s| && NoDuplicates(s)
    ensures multiset(s)[s[j]] == 1
  {
    var x := s[j];
    assert s == s[..j] + [x] + s[j + 1..];
    assert x !in s[..j] && x !in s[j + 1..];
    assert multiset(s[..j])[x] == 0 && multiset(s[j + 1..])[x] == 0;
  }

  lemma HeadFollows<T>(s: seq<T>, target: seq<T>)
    requires s != [] && |s| == |target| && multiset(s) == multiset(target)
    requires forall k :: 0 < k < |s| ==> s[k] == target[k]
    ensures s == target
  {
    assert s == [s[0]] + s[1..] && target == [target[0]] + target[1..];
    assert s[1..] == target[1..];
    var rest := multiset(s[1..]);
    assert multiset{s[0]} + rest == multiset{target[0]} + rest;
    assert (multiset{s[0]} + rest)[s[0]] == rest[s[0]] + 1;
  }

  // ---------------------------------------------------------------- the shuffle in place

  /** From here, the remaining turns of the loop lead to `goal`. */
  ghost predicate LeadsTo<S, T>(g: Generator<S>, state: S, s: seq<T>, i: nat, goal: seq<T>)
    requires i < |s|
  {
    ShuffleWith(s, ChoicesFrom(g, state, i)) == goal
  }

  lemma TurnLeadsOn<S, T>(g: Generator<S>, state: S, s: seq<T>, i: nat, goal: seq<T>)
    requires 0 < i < |s| && LeadsTo(g, state, s, i, goal)
    ensures var next := g.next(state);
            LeadsTo(g, next, Swap(s, i, Pick(g.word(next), i)), i - 1, goal)
  {
    var choices := ChoicesFrom(g, state, i);
    assert choices[..i - 1] == ChoicesFrom(g, g.next(state), i - 1);
  }

  method Turn<S, T>(a: array<T>, rng: Rng<S>, i: nat)
    requires 0 < i < a.Length
    modifies a, rng`state
    ensures rng.state == rng.generator.next(old(rng.state))
    ensures a[..] == Swap(old(a[..]), i, Pick(rng.generator.word(rng.state), i))
  {
    var word := rng.Rand();
    var j := Pick(word, i);
    a[i], a[j] := a[j], a[i];
  }

  method Copy<T(0)>(arr: array<T>) returns (a: array<T>)
    ensures fresh(a) && a[..] == arr[..]
  {
    a := new T[arr.Length];
    forall k | 0 <= k < arr.Length { a[k] := arr[k]; }
  }

  /** A shuffled copy, drawn from the generator; the argument keeps its order. */
  method ShuffleCopy<S, T(0)>(arr: array<T>, rng: Rng<S>) returns (a: array<T>)
    modifies rng`state
    ensures fresh(a) && a[..] == Shuffled(rng.generator, old(rng.state), arr[..])
    ensures arr[..] == old(arr[..])
    ensures rng.state == Advance(rng.generator, old(rng.state), Draws(arr.Length))
  {
    a := Copy(arr);
    if a.Length == 0 { return; }
    ghost var goal := Shuffled(rng.generator, rng.state, arr[..]);
    var i := a.Length - 1;
    while i > 0
      invariant 0 <= i < a.Length == arr.Length && fresh(a)
      invariant LeadsTo(rng.generator, rng.state, a[..], i, goal)
      invariant Advance(rng.generator, rng.state, i) == Advance(rng.generator, old(rng.state), a.Length - 1)
    {
      TurnLeadsOn(rng.generator, rng.state, a[..], i, goal);
      Turn(a, rng, i);
      i := i - 1;
    }
  }
}
