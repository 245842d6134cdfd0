/** The IP hunter: rounds that keep the pod-to-host map of a key-value store in step
    with the pod lists of the cluster, writing only what changed. */
module IpHunter {
  import opened Wrappers

  const IP_MAP_KEY_DIR := "Microsoft/FreeFlow/"
  const IP_NODES_KEY_DIR := "Kubernetes/Nodes/"

  datatype Pod = Pod(podIP: string, hostIP: string)

  type Table = map<string, string>

  /** The requests sent to the store. */
  datatype Request = Put(key: string, value: string) | Delete(key: string)

  function Lookup(m: Table, key: string): Option<string> { if key in m then Some(m[key]) else None }

  /** A pod without both addresses is skipped. */
  predicate Skipped(p: Pod) { p.podIP == "" || p.hostIP == "" }

  /** The last host that a pod list gives for each pod address. */
  function Current(pods: seq<Pod>): Table {
    if pods == [] then map[]
    else
      var m, p := Current(pods[..|pods| - 1]), pods[|pods| - 1];
      if Skipped(p) then m else m[p.podIP := p.hostIP]
  }

  predicate Differs(precede: Table, p: Pod) { Lookup(precede, p.podIP) != Some(p.hostIP) }

  /** For each pod address, the last host that differs from the one of the round before. */
  function Changed(precede: Table, pods: seq<Pod>): Table {
    if pods == [] then map[]
    else
      var m, p := Changed(precede, pods[..|pods| - 1]), pods[|pods| - 1];
      if Skipped(p) || !Differs(precede, p) then m else m[p.podIP := p.hostIP]
  }

  /** What a round leaves in the store for pod address `k`. */
  function RoundValue(before: Table, dir: string, precede: Table, pods: seq<Pod>, k: string): Option<string> {
    var changed := Changed(precede, pods);
    if k in changed then Some(changed[k])
    else if k in precede && k !in Current(pods) then None
    else Lookup(before, dir + k)
  }

  ghost predicate Round(before: Table, after: Table, dir: string, precede: Table, pods: seq<Pod>) {
    forall k: string :: Lookup(after, dir + k) == RoundValue(before, dir, precede, pods, k)
  }

  /** The store holds exactly `m` under the directory. */
  ghost predicate Mirrors(data: Table, dir: string, m: Table) {
    forall k: string :: Lookup(data, dir + k) == Lookup(m, k)
  }

  // ---- The methods --------------------------------------------------------------

  /** `after` is `before` with the entries `done` of `m` written under the directory. */
  ghost predicate Wrote(before: Table, after: Table, dir: string, m: Table, done: set<string>) {
    && (forall k: string :: Lookup(after, dir + k) == if k in done then Lookup(m, k) else Lookup(before, dir + k))
    && (forall key: string :: !(dir <= key) ==> Lookup(after, key) == Lookup(before, key))
  }

  /** `after` is `before` without the keys `gone` under the directory. */
  ghost predicate Erased(before: Table, after: Table, dir: string, gone: set<string>) {
    && (forall k: string :: Lookup(after, dir + k) == if k in gone then None else Lookup(before, dir + k))
    && (forall key: string :: !(dir <= key) ==> Lookup(after, key) == Lookup(before, key))
  }

  lemma KeysApart(dir: string, k: string, l: string)
    ensures dir + k == dir + l <==> k == l
    ensures dir <= dir + k
  {
    assert (dir + k)[|dir|..] == k && (dir + l)[|dir|..] == l;
  }

  lemma WriteOne(before: Table, after: Table, dir: string, m: Table, done: set<string>, k: string)
    requires Wrote(before, after, dir, m, done) && k in m
    ensures Wrote(before, after[dir + k := m[k]], dir, m, done + {k})
  {
    forall l: string ensures dir + k == dir + l <==> k == l { KeysApart(dir, k, l); }
    KeysApart(dir, k, k);
  }

  lemma EraseOne(before: Table, after: Table, dir: string, gone: set<string>, k: string)
    requires Erased(before, after, dir, gone)
    ensures Erased(before, after - {dir + k}, dir, gone + {k})
  {
    forall l: string ensures dir + k == dir + l <==> k == l { KeysApart(dir, k, l); }
    KeysApart(dir, k, k);
  }

  /** A list of all the keys, each once. */
  ghost predicate Enumerates(order: seq<string>, keys: set<string>) {
    && (forall i, j :: 0 <= i < j < |order| ==> order[i] != order[j])
    && (forall k: string :: k in order <==> k in keys)
  }

  lemma EnumeratesMore(order: seq<string>, keys: set<string>, k: string)
    requires Enumerates(order, keys) && k !in keys
    ensures Enumerates(order + [k], keys + {k})
  {
  }

  function Puts(order: seq<string>, m: Table): seq<Request>
    requires forall i :: 0 <= i < |order| ==> order[i] in m
  {
    seq(|order|, i requires 0 <= i < |order| => Put(IP_MAP_KEY_DIR + order[i], m[order[i]]))
  }

  lemma PutsGrow(order: seq<string>, m: Table, k: string, issued: seq<Request>, before: seq<Request>)
    requires (forall i :: 0 <= i < |order| ==> order[i] in m) && k in m && issued == before + Puts(order, m)
    ensures issued + [Put(IP_MAP_KEY_DIR + k, m[k])] == before + Puts(order + [k], m)
  {
    assert Puts(order + [k], m) == Puts(order, m) + [Put(IP_MAP_KEY_DIR + k, m[k])];
  }

  function Deletes(order: seq<string>): seq<Request> {
    seq(|order|, i requires 0 <= i < |order| => Delete(IP_MAP_KEY_DIR + order[i]))
  }

  lemma DeletesGrow(order: seq<string>, k: string, issued: seq<Request>, before: seq<Request>)
    requires issued == before + Deletes(order)
    ensures issued + [Delete(IP_MAP_KEY_DIR + k)] == before + Deletes(order + [k])
  {
    assert Deletes(order + [k]) == Deletes(order) + [Delete(IP_MAP_KEY_DIR + k)];
  }

  /** The state of the writing loop: the entries `done` are written, in this order. */
  ghost predicate Putting(before: Table, after: Table, m: Table, done: set<string>, order: seq<string>,
                          issued: seq<Request>, issued': seq<Request>)
  {
    && Wrote(before, after, IP_MAP_KEY_DIR, m, done) && Enumerates(order, done)
    && (forall i :: 0 <= i < |order| ==> order[i] in m) && issued' == issued + Puts(order, m)
  }

  lemma PutOne(before: Table, after: Table, m: Table, done: set<string>, order: seq<string>,
               issued: seq<Request>, issued': seq<Request>, k: string)
    requires Putting(before, after, m, done, order, issued, issued') && k in m && k !in done
    ensures Putting(before, after[IP_MAP_KEY_DIR + k := m[k]], m, done + {k}, order + [k],
                    issued, issued' + [Put(IP_MAP_KEY_DIR + k, m[k])])
  {
    WriteOne(before, after, IP_MAP_KEY_DIR, m, done, k);
    EnumeratesMore(order, done, k);
    PutsGrow(order, m, k, issued', issued);
  }

  /** A store after deleting everything under a directory. */
  function Without(store: Table, dir: string): Table {
    map key | key in store && !(dir <= key) :: store[key]
  }

  class Hunter {
    var data: Table            // the store
    var issued: seq<Request>   // the requests sent to it
    var precede: Table         // the pod map of the round before

    /** Start on a store: delete what an earlier run left under the two directories. */
    constructor (store: Table)
      ensures precede == map[]
      ensures Mirrors(data, IP_MAP_KEY_DIR, map[]) && Mirrors(data, IP_NODES_KEY_DIR, map[])
      ensures forall key: string :: !(IP_MAP_KEY_DIR <= key) && !(IP_NODES_KEY_DIR <= key) ==>
                Lookup(data, key) == Lookup(store, key)
    {
      data := Without(Without(store, IP_MAP_KEY_DIR), IP_NODES_KEY_DIR);
      issued, precede := [], map[];
      new;
      forall k: string ensures Lookup(data, IP_MAP_KEY_DIR + k) == None { KeysApart(IP_MAP_KEY_DIR, k, k); }
      forall k: string ensures Lookup(data, IP_NODES_KEY_DIR + k) == None { KeysApart(IP_NODES_KEY_DIR, k, k); }
    }

    /** The first loop of a round: what is there now and what is new or different. */
    method Scan(pods: seq<Pod>) returns (current: Table, changed: Table)
      ensures current == Current(pods) && changed == Changed(precede, pods)
    {
      current, changed := map[], map[];
      for i := 0 to |pods|
        invariant current == Current(pods[..i]) && changed == Changed(precede, pods[..i])
      {
        var p := pods[i];
        assert pods[..i + 1][..i] == pods[..i];
        if |p.podIP| == 0 || |p.hostIP| == 0 { continue; }
        current := current[p.podIP := p.hostIP];
        if p.podIP in precede && precede[p.podIP] == p.hostIP { continue; }
        changed := changed[p.podIP := p.hostIP];
      }
      assert pods[..|pods|] == pods;
    }

    /** Write every changed entry, in any order, each once. */
    method PutAll(changed: Table) returns (order: seq<string>)
      modifies this`data, this`issued
      ensures Wrote(old(data), data, IP_MAP_KEY_DIR, changed, changed.Keys)
      ensures Enumerates(order, changed.Keys) && issued == old(issued) + Puts(order, changed)
    {
      var left, done := changed.Keys, {};
      order := [];
      while left != {}
        invariant left <= changed.Keys && done == changed.Keys - left
        invariant Putting(old(data), data, changed, done, order, old(issued), issued)
        decreases |left|
      {
        var k :| k in left;
        PutOne(old(data), data, changed, done, order, old(issued), issued, k);
        data := data[IP_MAP_KEY_DIR + k := changed[k]];
        issued := issued + [Put(IP_MAP_KEY_DIR + k, changed[k])];
        done, left, order := done + {k}, left - {k}, order + [k];
      }
    }

    /** Delete every entry of the round before that is gone, in any order, each once. */
    method DeleteAll(gone: set<string>) returns (order: seq<string>)
      modifies this`data, this`issued
      ensures Erased(old(data), data, IP_MAP_KEY_DIR, gone)
      ensures Enumerates(order, gone) && issued == old(issued) + Deletes(order)
    {
      var left, done := gone, {};
      order := [];
      while left != {}
        invariant left <= gone && done == gone - left && Enumerates(order, done)
        invariant Erased(old(data), data, IP_MAP_KEY_DIR, done)
        invariant issued == old(issued) + Deletes(order)
        decreases |left|
      {
        var k :| k in left;
        EraseOne(old(data), data, IP_MAP_KEY_DIR, done, k);
        data := data - {IP_MAP_KEY_DIR + k};
        DeletesGrow(order, k, issued, old(issued));
        issued := issued + [Delete(IP_MAP_KEY_DIR + k)];
        EnumeratesMore(order, done, k);
        done, left, order := done + {k}, left - {k}, order + [k];
      }
    }

    /** One round: afterwards the store differs only in what changed or vanished. */
    method SyncRound(pods: seq<Pod>) returns (puts: seq<string>, deletes: seq<string>)
      modifies this
      ensures precede == Current(pods)
      ensures Round(old(data), data, IP_MAP_KEY_DIR, old(precede), pods)
      ensures forall key: string :: !(IP_MAP_KEY_DIR <= key) ==> Lookup(data, key) == Lookup(old(data), key)
      ensures Enumerates(puts, Changed(old(precede), pods).Keys)
      ensures Enumerates(deletes, old(precede).Keys - Current(pods).Keys)
      ensures issued == old(issued) + Puts(puts, Changed(old(precede), pods)) + Deletes(deletes)
    {
      var current, changed := Scan(pods);
      puts := PutAll(changed);
      deletes := DeleteAll(set k | k in precede && k !in current);
      assert (set k | k in precede && k !in current) == old(precede).Keys - Current(pods).Keys;
      precede := current;
      ChangedIsCurrent(old(precede), pods);
    }
  }

  // ---- Rounds in a row ------------------------------------------------------------

  lemma {:induction false} ChangedIsCurrent(precede: Table, pods: seq<Pod>)
    ensures Changed(precede, pods).Keys <= Current(pods).Keys
  {
    if pods != [] { ChangedIsCurrent(precede, pods[..|pods| - 1]); }
  }

  /** No pod address is listed last with the host of the round before after it was listed
      with another one in the same round. */
  ghost predicate Consistent(precede: Table, pods: seq<Pod>) {
    forall k :: k in Current(pods) && Lookup(precede, k) == Some(Current(pods)[k]) ==>
      forall i :: 0 <= i < |pods| && !Skipped(pods[i]) && pods[i].podIP == k ==> pods[i].hostIP == Current(pods)[k]
  }

  /** An address is written exactly when some pod lists it with another host than before. */
  lemma {:induction false} ChangedExactly(precede: Table, pods: seq<Pod>, k: string)
    ensures k in Changed(precede, pods)
            <==> exists i :: 0 <= i < |pods| && !Skipped(pods[i]) && pods[i].podIP == k && Differs(precede, pods[i])
    ensures k in Changed(precede, pods) && Lookup(precede, k) != Lookup(Current(pods), k)
            ==> Lookup(Changed(precede, pods), k) == Lookup(Current(pods), k)
    ensures k in Changed(precede, pods) ==> Lookup(precede, k) != Some(Changed(precede, pods)[k])
  {
    if pods != [] {
      var n := |pods| - 1;
      ChangedExactly(precede, pods[..n], k);
      assert forall i :: 0 <= i < n ==> pods[..n][i] == pods[i];
    }
  }

  /** For one address: the round leaves the current host in the store exactly when the
      address was not listed with another host before its old one. */
  lemma RoundAt(before: Table, dir: string, precede: Table, pods: seq<Pod>, k: string)
    requires Lookup(before, dir + k) == Lookup(precede, k)
    ensures RoundValue(before, dir, precede, pods, k) == Lookup(Current(pods), k)
            <==> !(k in Changed(precede, pods) && Lookup(precede, k) == Lookup(Current(pods), k))
  {
    ChangedExactly(precede, pods, k);
    ChangedIsCurrent(precede, pods);
    if k in Current(pods) && k !in Changed(precede, pods) { CurrentIsListed(pods, k); }
  }

  lemma {:induction false} CurrentIsListed(pods: seq<Pod>, k: string)
    requires k in Current(pods)
    ensures exists i :: 0 <= i < |pods| && !Skipped(pods[i]) && pods[i].podIP == k && pods[i].hostIP == Current(pods)[k]
  {
    var n := |pods| - 1;
    if Skipped(pods[n]) || pods[n].podIP != k {
      CurrentIsListed(pods[..n], k);
      var i :| 0 <= i < n && !Skipped(pods[..n][i]) && pods[..n][i].podIP == k
               && pods[..n][i].hostIP == Current(pods[..n])[k];
      assert pods[i] == pods[..n][i];
    }
  }

  /** The pod is placed: it has address `k`, which is not empty, and a host. */
  predicate PlacedAt(p: Pod, k: string) { p.podIP == k && |k| != 0 && |p.hostIP| != 0 }

  /** Pod `i` is the last of the list that is placed at `k`. */
  predicate LastAt(pods: seq<Pod>, i: nat, k: string) {
    i < |pods| && PlacedAt(pods[i], k) && forall j :: i < j < |pods| ==> !PlacedAt(pods[j], k)
  }

  lemma LastInPrefix(pods: seq<Pod>, i: nat, k: string)
    requires pods != []
    ensures var n := |pods| - 1;
            LastAt(pods, i, k) <==> if PlacedAt(pods[n], k) then i == n else LastAt(pods[..n], i, k)
  {
    var n := |pods| - 1;
    assert forall j :: 0 <= j < n ==> pods[..n][j] == pods[j];
    if LastAt(pods[..n], i, k) && !PlacedAt(pods[n], k) {
      forall j | i < j < |pods| ensures !PlacedAt(pods[j], k) { assert j == n || pods[j] == pods[..n][j]; }
    }
  }

  lemma {:induction false} CurrentIsLast(pods: seq<Pod>, k: string)
    ensures k in Current(pods) <==> exists i: nat :: LastAt(pods, i, k)
    ensures forall i: nat :: LastAt(pods, i, k) ==> Lookup(Current(pods), k) == Some(pods[i].hostIP)
    decreases |pods|
  {
    if pods != [] {
      var n := |pods| - 1;
      CurrentIsLast(pods[..n], k);
      forall i: nat ensures LastAt(pods, i, k) <==>
        if PlacedAt(pods[n], k) then i == n else LastAt(pods[..n], i, k)
      {
        LastInPrefix(pods, i, k);
      }
      assert PlacedAt(pods[n], k) ==> LastAt(pods, n, k);
    }
  }

  lemma {:induction false} SomeIsLast(pods: seq<Pod>, i: nat, k: string) returns (j: nat)
    requires i < |pods| && PlacedAt(pods[i], k)
    ensures LastAt(pods, j, k)
    decreases |pods| - i
  {
    if LastAt(pods, i, k) {
      j := i;
    } else {
      var l :| i < l < |pods| && PlacedAt(pods[l], k);
      j := SomeIsLast(pods, l, k);
    }
  }

  /** The current map has an address exactly when some pod is placed at it, with the host of the
      last such pod; it never has the empty address, whose key would be the directory itself. */
  lemma CurrentExactly(pods: seq<Pod>, k: string)
    ensures k in Current(pods) <==> exists i :: 0 <= i < |pods| && PlacedAt(pods[i], k)
    ensures forall i: nat :: LastAt(pods, i, k) ==> Lookup(Current(pods), k) == Some(pods[i].hostIP)
    ensures "" !in Current(pods)
  {
    CurrentIsLast(pods, k);
    CurrentIsLast(pods, "");
    if exists i :: 0 <= i < |pods| && PlacedAt(pods[i], k) {
      var i :| 0 <= i < |pods| && PlacedAt(pods[i], k);
      var j := SomeIsLast(pods, i, k);
    }
  }

  /** A round writes an address exactly when some pod is placed at it with another host than in
      the round before. */
  lemma WritesPlaced(precede: Table, pods: seq<Pod>, k: string)
    ensures k in Changed(precede, pods) <==>
            exists i :: 0 <= i < |pods| && PlacedAt(pods[i], k) && Lookup(precede, k) != Some(pods[i].hostIP)
  {
    ChangedExactly(precede, pods, k);
    forall i | 0 <= i < |pods| && pods[i].podIP == k
      ensures PlacedAt(pods[i], k) && Lookup(precede, k) != Some(pods[i].hostIP)
              <==> !Skipped(pods[i]) && Differs(precede, pods[i])
    {
    }
  }

  lemma ConsistentMeans(precede: Table, pods: seq<Pod>)
    ensures Consistent(precede, pods)
            <==> forall k: string :: !(k in Changed(precede, pods) && Lookup(precede, k) == Lookup(Current(pods), k))
  {
    ChangedIsCurrent(precede, pods);
    forall k: string ensures k in Changed(precede, pods) <==>
      exists i :: 0 <= i < |pods| && !Skipped(pods[i]) && pods[i].podIP == k && Differs(precede, pods[i])
    {
      ChangedExactly(precede, pods, k);
    }
  }

  /** A round on a store in step leaves it in step exactly when the pod list is consistent
      with the round before. */
  lemma RoundInStepIff(before: Table, after: Table, dir: string, precede: Table, pods: seq<Pod>)
    requires Mirrors(before, dir, precede) && Round(before, after, dir, precede, pods)
    ensures Mirrors(after, dir, Current(pods)) <==> Consistent(precede, pods)
  {
    forall k: string ensures Lookup(after, dir + k) == Lookup(Current(pods), k)
                             <==> !(k in Changed(precede, pods) && Lookup(precede, k) == Lookup(Current(pods), k))
    {
      RoundAt(before, dir, precede, pods, k);
    }
    ConsistentMeans(precede, pods);
  }

  /** The pod map that the round before number `i` left. */
  function Precede(lists: seq<seq<Pod>>, i: nat): Table
    requires i <= |lists|
  {
    if i == 0 then map[] else Current(lists[i - 1])
  }

  /** Stores seen before and after each round; keys elsewhere may change in between. */
  ghost predicate Rounds(stores: seq<Table>, lists: seq<seq<Pod>>, dir: string) {
    && |stores| == |lists| + 1 && Mirrors(stores[0], dir, map[])
    && forall i :: 0 <= i < |lists| ==> Round(stores[i], stores[i + 1], dir, Precede(lists, i), lists[i])
  }

  ghost predicate InStepUpTo(stores: seq<Table>, lists: seq<seq<Pod>>, dir: string, n: nat)
    requires |stores| == |lists| + 1 && n <= |lists|
  {
    forall i :: 0 <= i <= n ==> Mirrors(stores[i], dir, Precede(lists, i))
  }

  ghost predicate ConsistentUpTo(lists: seq<seq<Pod>>, n: nat)
    requires n <= |lists|
  {
    forall i :: 0 <= i < n ==> Consistent(Precede(lists, i), lists[i])
  }

  lemma LastRound(stores: seq<Table>, lists: seq<seq<Pod>>, dir: string, n: nat)
    requires Rounds(stores, lists, dir) && 0 < n <= |lists| && InStepUpTo(stores, lists, dir, n - 1)
    ensures InStepUpTo(stores, lists, dir, n) <==> Consistent(Precede(lists, n - 1), lists[n - 1])
  {
    var before, after := stores[n - 1], stores[n];
    assert Round(before, after, dir, Precede(lists, n - 1), lists[n - 1]);
    assert Mirrors(before, dir, Precede(lists, n - 1));
    RoundInStepIff(before, after, dir, Precede(lists, n - 1), lists[n - 1]);
    assert InStepUpTo(stores, lists, dir, n) <==> Mirrors(after, dir, Precede(lists, n));
  }

  /** The store is the pod map after every round exactly when every list is consistent. */
  lemma {:induction false} AlwaysInStepIff(stores: seq<Table>, lists: seq<seq<Pod>>, dir: string, n: nat)
    requires Rounds(stores, lists, dir) && n <= |lists|
    ensures InStepUpTo(stores, lists, dir, n) <==> ConsistentUpTo(lists, n)
  {
    if 0 < n {
      AlwaysInStepIff(stores, lists, dir, n - 1);
      if InStepUpTo(stores, lists, dir, n - 1) { LastRound(stores, lists, dir, n); }
    }
  }

  /** Lists that give every address one host are consistent, whatever came before. */
  lemma OneHostEachIsConsistent(precede: Table, pods: seq<Pod>)
    requires forall i, j :: 0 <= i < |pods| && 0 <= j < |pods| && pods[i].podIP == pods[j].podIP
                            ==> pods[i].hostIP == pods[j].hostIP
    ensures Consistent(precede, pods)
  {
    forall k | k in Current(pods)
      ensures exists i :: 0 <= i < |pods| && pods[i].podIP == k && pods[i].hostIP == Current(pods)[k]
    {
      CurrentIsListed(pods, k);
    }
  }

  /** A consistent round writes an address exactly when its host is new or different. */
  lemma WritesOnlyChanges(precede: Table, pods: seq<Pod>, k: string)
    requires Consistent(precede, pods)
    ensures k in Changed(precede, pods) <==> k in Current(pods) && Lookup(precede, k) != Lookup(Current(pods), k)
  {
    ChangedExactly(precede, pods, k);
    ConsistentMeans(precede, pods);
    ChangedIsCurrent(precede, pods);
    if k in Current(pods) { CurrentIsListed(pods, k); }
  }

  /** An address listed with another host and then with its old one is left wrong. */
  lemma ListedTwiceGoesWrong(before: Table, dir: string, precede: Table, ip: string, a: string, b: string)
    requires ip != "" && a != "" && b != "" && a != b && Lookup(precede, ip) == Some(a)
    ensures var pods := [Pod(ip, b), Pod(ip, a)];
            && !Consistent(precede, pods) && Lookup(Current(pods), ip) == Some(a)
            && RoundValue(before, dir, precede, pods, ip) == Some(b)
  {
    var p, q := Pod(ip, b), Pod(ip, a);
    var pods := [p, q];
    assert pods[..1] == [p] && [p][..0] == [];
    assert Current([p]) == map[ip := b] && Changed(precede, [p]) == map[ip := b];
    assert Current(pods) == map[ip := a] && Changed(precede, pods) == map[ip := b];
    assert pods[0] == p && !Skipped(p);
  }
}
