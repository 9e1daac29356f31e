/** The loading screen (components/LoadingScreen.tsx): the two interval
    callbacks as step functions. The message list is a parameter, the random
    draw a number `r` with `0 <= r < 1`, and the percentage a real number. */
module LoadingScreen {
  import opened Modular

  /** `list.indexOf(x)`: the first position of `x`, or -1. */
  function IndexOf(list: seq<string>, x: string): (i: int)
    ensures -1 <= i < |list|
    ensures i == -1 <==> x !in list
    ensures 0 <= i ==> list[i] == x && forall j :: 0 <= j < i ==> list[j] != x
  {
    if list == [] then -1
    else if list[0] == x then 0
    else
      var k := IndexOf(list[1..], x);
      if k == -1 then -1 else k + 1
  }

  /** The message interval's update: the entry after the first occurrence of
      the previous message, wrapping around. */
  function NextMessage(messages: seq<string>, prev: string): (m: string)
    requires |messages| > 0
    ensures m in messages
  {
    messages[(IndexOf(messages, prev) + 1) % |messages|]
  }

  /** A message that is not in the list advances to the first entry. */
  lemma NextMessageOfUnlisted(messages: seq<string>, prev: string)
    requires |messages| > 0 && prev !in messages
    ensures NextMessage(messages, prev) == messages[0]
  {
    ModUnique(0, |messages|, 0, 0);
  }

  predicate Distinct(messages: seq<string>) {
    forall i, j :: 0 <= i < j < |messages| ==> messages[i] != messages[j]
  }

  /** In a list without duplicates, entry `i` advances to entry `i + 1`,
      wrapping around. */
  lemma NextMessageOfListed(messages: seq<string>, i: nat)
    requires Distinct(messages) && i < |messages|
    ensures NextMessage(messages, messages[i]) == messages[(i + 1) % |messages|]
  {
    assert IndexOf(messages, messages[i]) == i;
  }

  /** The message shown after `k` ticks starting from `m`. */
  function MessageAfter(messages: seq<string>, m: string, k: nat): string
    requires |messages| > 0
  {
    if k == 0 then m else NextMessage(messages, MessageAfter(messages, m, k - 1))
  }

  /** In a list without duplicates, `k` ticks from entry `i` show entry
      `i + k`, wrapping around. */
  lemma {:induction false} MessageAfterModulo(messages: seq<string>, i: nat, k: nat)
    requires Distinct(messages) && i < |messages|
    ensures MessageAfter(messages, messages[i], k) == messages[(i + k) % |messages|]
  {
    var n := |messages|;
    if k == 0 {
      ModUnique(i, n, 0, i);
    } else {
      MessageAfterModulo(messages, i, k - 1);
      var j := (i + k - 1) % n;
      DivMod(i + k - 1, n);
      NextMessageOfListed(messages, j);
      ModSucc(i + k - 1, n);
    }
  }

  /** As many ticks as there are messages bring a listed message back. */
  lemma FullCycleReturns(messages: seq<string>, i: nat)
    requires Distinct(messages) && i < |messages|
    ensures MessageAfter(messages, messages[i], |messages|) == messages[i]
  {
    var n := |messages|;
    ModUnique(i + n, n, 1, i);
    assert (i + n) % n == i;
    MessageAfterModulo(messages, i, n);
  }

  /** The percentage the simulated progress never passes. */
  const ProgressCap: real := 95.0

  /** The random increment: up to 3 points while more than 20 remain to 100,
      up to 1 point after that. */
  function Increment(prev: real, r: real): (inc: real)
    requires 0.0 <= r < 1.0
    ensures 0.0 <= inc
    ensures 100.0 - prev > 20.0 ==> inc < 3.0
    ensures 100.0 - prev <= 20.0 ==> inc < 1.0
  {
    r * (if 100.0 - prev > 20.0 then 3.0 else 1.0)
  }

  function MinReal(a: real, b: real): real { if a <= b then a else b }

  /** The progress interval's update. */
  function ProgressStep(prev: real, r: real): (next: real)
    requires 0.0 <= r < 1.0
    ensures next <= ProgressCap
    ensures prev >= ProgressCap ==> next == ProgressCap
    ensures prev <= ProgressCap ==> prev <= next
    ensures prev < ProgressCap ==> next - prev < (if 100.0 - prev > 20.0 then 3.0 else 1.0)
  {
    if prev >= ProgressCap then ProgressCap
    else MinReal(prev + Increment(prev, r), ProgressCap)
  }

  /** Every draw of `Math.random()` lies in [0, 1). */
  predicate ValidDraws(draws: seq<real>) {
    forall k :: 0 <= k < |draws| ==> 0.0 <= draws[k] < 1.0
  }

  /** The progress after one tick per draw, starting from 0. */
  function ProgressAfter(draws: seq<real>): (p: real)
    requires ValidDraws(draws)
    ensures 0.0 <= p <= ProgressCap
    decreases |draws|
  {
    if draws == [] then 0.0
    else ProgressStep(ProgressAfter(draws[..|draws| - 1]), draws[|draws| - 1])
  }

  /** Progress never goes back: after more ticks it is at least what it was
      after fewer. */
  lemma {:induction false} ProgressMonotone(draws: seq<real>, k: nat)
    requires ValidDraws(draws) && k <= |draws|
    ensures ProgressAfter(draws[..k]) <= ProgressAfter(draws)
    decreases |draws| - k
  {
    if k < |draws| {
      var shorter := draws[..|draws| - 1];
      assert shorter[..k] == draws[..k];
      ProgressMonotone(shorter, k);
    } else {
      assert draws[..k] == draws;
    }
  }

  /** The screen's state: the message shown and the percentage. */
  class Screen {
    const messages: seq<string>
    var message: string
    var progress: real

    ghost predicate Valid()
      reads this
    {
      |messages| > 0 && message in messages && 0.0 <= progress <= ProgressCap
    }

    constructor (messages: seq<string>)
      requires |messages| > 0
      ensures this.messages == messages && message == messages[0] && progress == 0.0
      ensures Valid()
    {
      this.messages := messages;
      message := messages[0];
      progress := 0.0;
    }

    /** One tick of the message interval. */
    method TickMessage()
      requires Valid()
      modifies this
      ensures message == NextMessage(messages, old(message)) && progress == old(progress)
      ensures Valid()
    {
      message := NextMessage(messages, message);
    }

    /** One tick of the progress interval with the draw `r`. */
    method TickProgress(r: real)
      requires Valid() && 0.0 <= r < 1.0
      modifies this
      ensures progress == ProgressStep(old(progress), r) && message == old(message)
      ensures old(progress) <= progress
      ensures Valid()
    {
      progress := ProgressStep(progress, r);
    }
  }
}
