/** The loading indicator: a message that moves through a fixed list of six,
    one step per timer tick, and wraps around. */
module Loader {
  import opened JsText

  const Messages: seq<string> := [
    "Consultando a musa da criatividade...",
    "Misturando pixels e possibilidades...",
    "Ensinando a IA sobre o seu produto...",
    "Ajustando a iluminação virtual...",
    "Gerando uma obra-prima de marketing...",
    "Polindo os detalhes finais..."
  ]

  predicate Distinct(list: seq<string>)
  {
    forall i, j :: 0 <= i < j < |list| ==> list[i] != list[j]
  }

  /** The step inside the timer callback over a list of messages:
      `list[(list.indexOf(prev) + 1) % list.length]`. The dividend is never
      negative, so JavaScript's `%` and Dafny's agree. */
  function NextIn(list: seq<string>, prev: string): (next: string)
    requires |list| > 0
    ensures next in list
  {
    list[(IndexOf(list, prev) + 1) % |list|]
  }

  /** In a list without repeats, a tick moves from entry `i` to entry
      `i + 1`, and from the last entry back to the first. */
  lemma NextInAdvances(list: seq<string>, i: nat)
    requires Distinct(list) && i < |list|
    ensures NextIn(list, list[i]) == if i + 1 < |list| then list[i + 1] else list[0]
  {
    var k := IndexOf(list, list[i]);
    assert list[k] == list[i];
    WrapNext(i + 1, |list|);
  }

  /** A successor index taken modulo the length stays put, or wraps to 0. */
  lemma WrapNext(k: nat, n: nat)
    requires 0 < k <= n
    ensures k % n == if k < n then k else 0
  {
  }

  /** The message after `n` ticks of `step` from `m`. */
  function Ticks(step: string -> string, m: string, n: nat): string
    decreases n
  {
    if n == 0 then m else step(Ticks(step, m, n - 1))
  }

  /** `step` walks `list` in order and goes from its last entry back to its
      first. */
  predicate Cycles(step: string -> string, list: seq<string>)
  {
    && |list| > 0
    && (forall j :: 0 <= j < |list| - 1 ==> step(list[j]) == list[j + 1])
    && step(list[|list| - 1]) == list[0]
  }

  /** Ticking `a` times and then `b` times is ticking `a + b` times. */
  lemma {:induction false} TicksAdd(step: string -> string, m: string, a: nat, b: nat)
    ensures Ticks(step, m, a + b) == Ticks(step, Ticks(step, m, a), b)
    decreases b
  {
    if b > 0 {
      TicksAdd(step, m, a, b - 1);
    }
  }

  /** Before the end of the list, `n` ticks move `n` entries forward. */
  lemma {:induction false} TicksWithin(step: string -> string, list: seq<string>, i: nat, n: nat)
    requires Cycles(step, list) && i + n < |list|
    ensures Ticks(step, list[i], n) == list[i + n]
    decreases n
  {
    if n > 0 {
      TicksWithin(step, list, i, n - 1);
    }
  }

  /** As many ticks as there are entries bring an entry back to itself. */
  lemma TicksFullCycle(step: string -> string, list: seq<string>, i: nat)
    requires Cycles(step, list) && i < |list|
    ensures Ticks(step, list[i], |list|) == list[i]
  {
    var last := |list| - 1;
    TicksWithin(step, list, i, last - i);
    assert Ticks(step, list[last], 1) == list[0];
    TicksWithin(step, list, 0, i);
    TicksAdd(step, list[i], last - i, 1);
    TicksAdd(step, list[i], last - i + 1, i);
  }

  /** `messages`' step. */
  function NextMessage(prev: string): (next: string)
    ensures next in Messages
  {
    NextIn(Messages, prev)
  }

  /** No message appears twice in the list. */
  lemma MessagesDistinct()
    ensures Distinct(Messages)
  {
    assert Messages[0][0] == 'C' && Messages[1][0] == 'M' && Messages[2][0] == 'E';
    assert Messages[3][0] == 'A' && Messages[4][0] == 'G' && Messages[5][0] == 'P';
  }

  /** A tick moves from entry `i` to entry `i + 1`, and from the last entry
      back to the first. */
  lemma NextMessageAdvances(i: nat)
    requires i < |Messages|
    ensures NextMessage(Messages[i]) == if i < 5 then Messages[i + 1] else Messages[0]
  {
    MessagesDistinct();
    NextInAdvances(Messages, i);
  }

  /** A message that is not in the list is followed by the first entry
      (`indexOf` gives -1). */
  lemma NextMessageOfUnknown(prev: string)
    requires prev !in Messages
    ensures NextMessage(prev) == Messages[0]
  {
  }

  /** The component's step walks the list in order and wraps around. */
  lemma MessagesCycle()
    ensures Cycles(NextMessage, Messages)
  {
    forall j | 0 <= j < |Messages| - 1
      ensures NextMessage(Messages[j]) == Messages[j + 1]
    {
      NextMessageAdvances(j);
    }
    NextMessageAdvances(|Messages| - 1);
  }

  /** Six ticks bring any listed message back to itself. */
  lemma SixTicksReturn(m: string)
    requires m in Messages
    ensures Ticks(NextMessage, m, 6) == m
  {
    var i :| 0 <= i < |Messages| && Messages[i] == m;
    MessagesCycle();
    TicksFullCycle(NextMessage, Messages, i);
  }

  /** The `message` state of the component. */
  class LoaderState {
    var message: string

    /** The message is always one of the list's entries. */
    ghost predicate Valid()
      reads this
    {
      message in Messages
    }

    /** The state starts at the first entry. */
    constructor ()
      ensures Valid() && message == Messages[0]
    {
      message := Messages[0];
    }

    /** One timer tick: `setMessage` with the next message. */
    method Tick()
      modifies this
      ensures Valid()
      ensures message == NextMessage(old(message))
    {
      message := NextMessage(message);
    }
  }
}
