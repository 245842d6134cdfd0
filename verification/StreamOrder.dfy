/** What the two ends of a connection guarantee to the applications, over every run: any
    sequence of sends, reads, credit updates, completions, landings and shutdowns of the two
    ends, in any order, with any chunking and in both transport modes. */
module StreamOrder {
  import opened RsSocket
  import opened RsProtocol
  import opened RsClosure
  import opened RsDelivery

  function Other(side: Side): Side { if side.SideA? then SideB else SideA }

  /** The histories record exactly what the applications sent and were given. */
  lemma {:induction false} HistoriesMatch(s: Sys, es: seq<Event>, side: Side)
    requires Legal(s, es)
    requires View(s, side).x.h.sent == [] && View(s, side).x.h.read == []
    ensures View(After(s, es), side).x.h.sent == Accepted(es, side)
    ensures View(After(s, es), side).x.h.read == Returned(s, es, side)
    decreases |es|
  {
    if es != [] {
      HistoriesMatch(s, es[..|es| - 1], side);
      StepHistory(es[|es| - 1].step, View(After(s, es[..|es| - 1]), es[|es| - 1].side));
    }
  }

  /** The bytes one end is given are a prefix of the bytes the other end accepted. */
  lemma DeliveredInOrder(ca: Config, cb: Config, es: seq<Event>, side: Side)
    requires Reaches(ca, cb, es)
    ensures Returned(Start(ca, cb), es, side) <= Accepted(es, Other(side))
  {
    HistoriesMatch(Start(ca, cb), es, side);
    HistoriesMatch(Start(ca, cb), es, Other(side));
    RunsAreReachable(ca, cb, es, side);
    ReadIsPrefix(View(StateOf(ca, cb, es), side));
  }
}
