/** Dividing a text budget over documents: each takes its rounded-up even share of what is left. */
module TextShares {

  function Ceil(amount: nat, slots: nat): nat
    requires slots > 0
  {
    (amount + slots - 1) / slots
  }

  lemma MulMono(x: nat, y: nat, n: nat)
    requires x <= y
    ensures x * n <= y * n
  {
  }

  lemma MulNext(x: nat, n: nat)
    ensures (x + 1) * n == x * n + n
  {
  }

  lemma LessThanNext(x: nat, y: nat, n: nat)
    requires x * n < y * n + n
    ensures x <= y
  {
    if y < x {
      MulMono(y + 1, x, n);
      MulNext(y, n);
    }
  }

  lemma CeilFacts(amount: nat, slots: nat)
    requires slots > 0
    ensures amount <= Ceil(amount, slots) * slots <= amount + slots - 1
    ensures Ceil(amount, slots) <= amount
    ensures amount > 0 ==> Ceil(amount, slots) > 0
  {
    var c := Ceil(amount, slots);
    MulMono(1, slots, amount);
    assert c * slots < amount * slots + slots;
    LessThanNext(c, amount, slots);
  }

  function Min(a: nat, b: nat): nat {
    if a <= b then a else b
  }

  function Share(lens: seq<nat>, budget: nat): (a: nat)
    requires lens != []
    ensures a <= budget && a <= lens[0]
  {
    CeilFacts(budget, |lens|);
    Min(lens[0], Ceil(budget, |lens|))
  }

  /** How much of each document is kept. */
  function Shares(lens: seq<nat>, budget: nat): (s: seq<nat>)
    ensures |s| == |lens|
  {
    if lens == [] then []
    else
      var a := Share(lens, budget);
      [a] + Shares(lens[1..], budget - a)
  }

  function Total(s: seq<nat>): nat {
    if s == [] then 0 else s[0] + Total(s[1..])
  }

  /** No document gives more than it has, and together they stay within the budget. */
  lemma {:induction false} SharesWithin(lens: seq<nat>, budget: nat)
    ensures Total(Shares(lens, budget)) <= budget
    ensures forall i | 0 <= i < |lens| :: Shares(lens, budget)[i] <= lens[i]
    decreases |lens|
  {
    if lens != [] {
      SharesWithin(lens[1..], budget - Share(lens, budget));
    }
  }

  lemma CeilStep(amount: nat, slots: nat)
    requires slots > 0
    ensures Ceil(amount, slots) <= Ceil(amount + 1, slots) <= Ceil(amount, slots) + 1
  {
    var c, d := Ceil(amount, slots), Ceil(amount + 1, slots);
    CeilFacts(amount, slots);
    CeilFacts(amount + 1, slots);
    LessThanNext(c, d, slots);
    MulNext(c, slots);
    LessThanNext(d, c + 1, slots);
  }

  ghost predicate OneMoreAtMost(s: seq<nat>, t: seq<nat>) {
    |s| == |t| && forall i | 0 <= i < |s| :: s[i] <= t[i] <= s[i] + 1
  }

  /** One more character of budget takes nothing from any document and adds at most one character in all. */
  lemma {:induction false} SharesStep(lens: seq<nat>, b: nat, c: nat)
    requires b <= c <= b + 1
    ensures OneMoreAtMost(Shares(lens, b), Shares(lens, c))
    ensures Total(Shares(lens, c)) <= Total(Shares(lens, b)) + c - b
    decreases |lens|
  {
    if lens != [] {
      CeilStep(b, |lens|);
      var x, y := Share(lens, b), Share(lens, c);
      SharesStep(lens[1..], b - x, c - y);
      var s, t := Shares(lens[1..], b - x), Shares(lens[1..], c - y);
      assert Shares(lens, b) == [x] + s && Shares(lens, c) == [y] + t;
      assert ([x] + s)[1..] == s && ([y] + t)[1..] == t;
    }
  }

  /** Shares are monotone in the budget, and none grows faster than it. */
  lemma {:induction false} SharesMonotone(lens: seq<nat>, b: nat, c: nat)
    requires b <= c
    ensures forall i | 0 <= i < |lens| :: Shares(lens, b)[i] <= Shares(lens, c)[i] <= Shares(lens, b)[i] + c - b
    ensures Total(Shares(lens, c)) <= Total(Shares(lens, b)) + c - b
    decreases c - b
  {
    if b < c {
      SharesMonotone(lens, b, c - 1);
      SharesStep(lens, c - 1, c);
    }
  }

  lemma ShareBetween(amount: nat, slots: nat, lo: nat, hi: nat)
    requires slots > 0 && lo <= hi <= lo + 1 && lo * slots <= amount <= hi * slots
    ensures var a := Ceil(amount, slots);
            lo <= a <= hi && lo * (slots - 1) <= amount - a <= hi * (slots - 1)
  {
    var a := Ceil(amount, slots);
    CeilFacts(amount, slots);
    LessThanNext(a, hi, slots);
    LessThanNext(lo, a, slots);
    if hi == lo + 1 {
      MulNext(lo, slots);
    }
  }

  lemma {:induction false} SharesBetween(lens: seq<nat>, budget: nat, lo: nat, hi: nat)
    requires lo <= hi <= lo + 1 && lo * |lens| <= budget <= hi * |lens|
    requires forall n | n in lens :: n >= hi
    ensures Total(Shares(lens, budget)) == budget
    ensures forall i | 0 <= i < |lens| :: lo <= Shares(lens, budget)[i] <= hi
    decreases |lens|
  {
    if lens != [] {
      ShareBetween(budget, |lens|, lo, hi);
      assert lens[0] in lens && forall n | n in lens[1..] :: n in lens;
      var a := Share(lens, budget);
      assert a == Ceil(budget, |lens|);
      SharesBetween(lens[1..], budget - a, lo, hi);
      assert Shares(lens, budget)[1..] == Shares(lens[1..], budget - a);
    }
  }

  /** When no document is shorter than an even share, the budget is spent exactly and evenly. */
  lemma FairShares(lens: seq<nat>, budget: nat)
    requires lens != [] && forall n | n in lens :: n >= Ceil(budget, |lens|)
    ensures Total(Shares(lens, budget)) == budget
    ensures forall i, j | 0 <= i < |lens| && 0 <= j < |lens| ::
              Shares(lens, budget)[i] <= Shares(lens, budget)[j] + 1
  {
    var n, hi := |lens|, Ceil(budget, |lens|);
    CeilFacts(budget, n);
    var lo := if budget == hi * n then hi else hi - 1;
    if hi > 0 {
      MulNext(hi - 1, n);
    }
    SharesBetween(lens, budget, lo, hi);
  }

  /** A budget that buys anything buys some of the first document. */
  lemma FirstIsServed(lens: seq<nat>, budget: nat)
    requires lens != [] && lens[0] > 0 && budget > 0
    ensures Shares(lens, budget)[0] > 0
  {
    CeilFacts(budget, |lens|);
  }
}
