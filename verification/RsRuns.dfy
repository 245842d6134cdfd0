/** Runs of two connected sockets, put together from shorter ones. */
module RsRuns {
  import opened RsProtocol

  lemma LegalSnoc(s: Sys, es: seq<Event>, e: Event)
    requires Legal(s, es) && CanDo(e.step, View(After(s, es), e.side))
    ensures Legal(s, es + [e])
    ensures After(s, es + [e]) == Back(Do(e.step, View(After(s, es), e.side)), e.side)
  {
    assert (es + [e])[..|es + [e]| - 1] == es;
  }

  /** Event `e` is possible in `s` and leads to `s'`. */
  ghost predicate Happens(s: Sys, e: Event, s': Sys) {
    CanDo(e.step, View(s, e.side)) && s' == Back(Do(e.step, View(s, e.side)), e.side)
  }

  /** Run `es` is possible from `s` and leads to `t`. */
  ghost predicate Leads(s: Sys, es: seq<Event>, t: Sys) { Legal(s, es) && After(s, es) == t }

  lemma LastEvent(s: Sys, es: seq<Event>, u: Sys) returns (t: Sys)
    requires Leads(s, es, u) && es != []
    ensures Leads(s, es[..|es| - 1], t) && Happens(t, es[|es| - 1], u)
  {
    t := After(s, es[..|es| - 1]);
  }

  lemma OneMore(s: Sys, pre: seq<Event>, t: Sys, e: Event, u: Sys, es: seq<Event>)
    requires Leads(s, pre, t) && Happens(t, e, u) && es == pre + [e]
    ensures Leads(s, es, u)
  {
    LegalSnoc(s, pre, e);
  }

  lemma {:induction false} LegalAppend(s: Sys, es: seq<Event>, t: Sys, fs: seq<Event>, u: Sys)
    requires Leads(s, es, t) && Leads(t, fs, u)
    ensures Leads(s, es + fs, u)
    decreases |fs|
  {
    if fs == [] {
      assert es + fs == es;
    } else {
      var pre, e := fs[..|fs| - 1], fs[|fs| - 1];
      assert fs == pre + [e];
      assert es + fs == es + pre + [e];
      var t1 := LastEvent(t, fs, u);
      LegalAppend(s, es, t, pre, t1);
      OneMore(s, es + pre, t1, e, u, es + fs);
    }
  }

  lemma LegalCons(s: Sys, e: Event, fs: seq<Event>)
    requires CanDo(e.step, View(s, e.side)) && Legal(Back(Do(e.step, View(s, e.side)), e.side), fs)
    ensures Legal(s, [e] + fs)
    ensures After(s, [e] + fs) == After(Back(Do(e.step, View(s, e.side)), e.side), fs)
  {
    LegalSnoc(s, [], e);
    assert [] + [e] == [e];
    LegalAppend(s, [e], After(s, [e]), fs, After(After(s, [e]), fs));
  }
}
