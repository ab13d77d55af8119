/** lbPicker of balancer/grpclb/grpclb_picker.go: round robin over the balancer's server list,
    and below it round robin over the ready SubConns. */
module LbPickers {
  import opened Connectivity
  import opened RoundRobin
  import opened LbStats

  datatype Server = Server(drop: bool, token: string)

  datatype Picker = Picker(serverList: seq<Server>, serverListNext: nat, subConns: seq<SubConn>, subConnsNext: nat)

  datatype Result = RequestDropped(token: string) | NoSubConnAvailable | Picked(sc: SubConn)

  datatype Event = Pick | UpdateReady(ready: seq<SubConn>)

  ghost predicate Valid(p: Picker) {
    && p.serverListNext < |p.serverList|
    && (p.subConns != [] ==> p.subConnsNext < |p.subConns|)
  }

  /** Pick without the statistics. */
  function Picks(p: Picker): (r: (Picker, Result))
    requires Valid(p)
    ensures Valid(r.0)
  {
    var s := p.serverList[p.serverListNext];
    var p' := p.(serverListNext := Advance(p.serverListNext, |p.serverList|));
    if s.drop then (p', RequestDropped(s.token))
    else if p.subConns == [] then (p', NoSubConnAvailable)
    else (p'.(subConnsNext := Advance(p.subConnsNext, |p.subConns|)), Picked(p.subConns[p.subConnsNext]))
  }

  /** updateReadySCs; its caller never passes an empty list (grpclb.go:262-286). */
  function Refreshed(p: Picker, ready: seq<SubConn>): (r: Picker)
    requires Valid(p) && ready != []
    ensures Valid(r)
  {
    p.(subConns := ready, subConnsNext := p.subConnsNext % |ready|)
  }

  ghost predicate WellFormed(events: seq<Event>) {
    forall i :: 0 <= i < |events| ==> events[i].UpdateReady? ==> events[i].ready != []
  }

  /** The picker and the results after a run of picks and refreshes. */
  ghost function Run(p: Picker, events: seq<Event>): (r: (Picker, seq<Result>))
    requires Valid(p) && WellFormed(events)
    ensures Valid(r.0)
  {
    if events == [] then (p, [])
    else
      var (p', results) := Run(p, events[..|events| - 1]);
      match events[|events| - 1]
      case Pick => var (p2, result) := Picks(p'); (p2, results + [result])
      case UpdateReady(ready) => (Refreshed(p', ready), results)
  }

  /** `result` is what the server-list entry demands, given some list of ready SubConns. */
  ghost predicate Honours(result: Result, entry: Server) {
    if entry.drop then result == RequestDropped(entry.token) else !result.RequestDropped?
  }

  /** The k-th pick of a run answers the k-th server-list entry in cyclic order, whatever refreshes happen. */
  lemma {:induction false} PicksWalkServerList(p: Picker, events: seq<Event>)
    requires Valid(p) && WellFormed(events)
    ensures var (p', results) := Run(p, events);
            && p'.serverList == p.serverList
            && p'.serverListNext == Nth(p.serverListNext, |p.serverList|, |results|)
            && forall k :: 0 <= k < |results| ==>
                 Honours(results[k], p.serverList[Nth(p.serverListNext, |p.serverList|, k)])
  {
    if events != [] {
      PicksWalkServerList(p, events[..|events| - 1]);
    }
  }

  function DropTokens(list: seq<Server>): (tokens: seq<string>) {
    if list == [] then []
    else DropTokens(list[..|list| - 1]) + if list[|list| - 1].drop then [list[|list| - 1].token] else []
  }

  function DroppedTokens(results: seq<Result>): (tokens: seq<string>) {
    if results == [] then []
    else DroppedTokens(results[..|results| - 1]) +
         if results[|results| - 1].RequestDropped? then [results[|results| - 1].token] else []
  }

  lemma {:induction false} DropTokensConcat(a: seq<Server>, b: seq<Server>)
    ensures DropTokens(a + b) == DropTokens(a) + DropTokens(b)
  {
    if b == [] {
      assert a + b == a;
    } else {
      DropTokensConcat(a, b[..|b| - 1]);
      assert (a + b)[..|a + b| - 1] == a + b[..|b| - 1] && (a + b)[|a + b| - 1] == b[|b| - 1];
    }
  }

  lemma {:induction false} HonouredDrops(results: seq<Result>, entries: seq<Server>)
    requires |results| == |entries|
    requires forall k :: 0 <= k < |results| ==> Honours(results[k], entries[k])
    ensures DroppedTokens(results) == DropTokens(entries)
  {
    if results != [] {
      HonouredDrops(results[..|results| - 1], entries[..|entries| - 1]);
    }
  }

  /** The server-list indices that a window of n picks consults. */
  ghost function Consulted(i: nat, n: nat): (indices: seq<nat>)
    requires i < n
    ensures |indices| == n && forall k :: 0 <= k < n ==> indices[k] == Nth(i, n, k)
  {
    seq(n, k requires k >= 0 => Nth(i, n, k))
  }

  function Rotated(list: seq<Server>, i: nat): (r: seq<Server>)
    requires i < |list|
  {
    list[i..] + list[..i]
  }

  lemma RotatedIsCyclic(list: seq<Server>, i: nat, k: nat)
    requires i < |list| && k < |list|
    ensures Rotated(list, i)[k] == list[Nth(i, |list|, k)]
  {
    NthIs(i, |list|, k);
  }

  lemma RotatedDrops(list: seq<Server>, i: nat)
    requires i < |list|
    ensures multiset(DropTokens(Rotated(list, i))) == multiset(DropTokens(list))
  {
    var tail, head := list[i..], list[..i];
    assert head + tail == list;
    DropTokensConcat(tail, head);
    DropTokensConcat(head, tail);
    SidesCommute(DropTokens(tail), DropTokens(head));
  }

  lemma SidesCommute(a: seq<string>, b: seq<string>)
    ensures multiset(a + b) == multiset(b + a)
  {
  }

  lemma WindowDrops(list: seq<Server>, i: nat, results: seq<Result>)
    requires i < |list| == |results|
    requires forall k :: 0 <= k < |results| ==> Honours(results[k], list[Nth(i, |list|, k)])
    ensures multiset(DroppedTokens(results)) == multiset(DropTokens(list))
  {
    forall k | 0 <= k < |list|
      ensures Honours(results[k], Rotated(list, i)[k])
    {
      RotatedIsCyclic(list, i, k);
    }
    HonouredDrops(results, Rotated(list, i));
    RotatedDrops(list, i);
  }

  /** Any window of len(serverList) picks consults each entry exactly once, in cyclic order, and does what
      it demands; the picker is then back where it was. */
  lemma {:induction false} WindowServesWholeList(p: Picker, events: seq<Event>, results: seq<Result>)
    requires Valid(p) && WellFormed(events)
    requires results == Run(p, events).1 && |results| == |p.serverList|
    ensures var consulted := Consulted(p.serverListNext, |p.serverList|);
            && EachOnce(consulted, |p.serverList|)
            && forall k :: 0 <= k < |results| ==> Honours(results[k], p.serverList[consulted[k]])
    ensures Run(p, events).0.serverListNext == p.serverListNext
  {
    PicksWalkServerList(p, events);
    WindowVisitsEachOnce(p.serverListNext, |p.serverList|, Consulted(p.serverListNext, |p.serverList|));
  }

  /** Such a window drops exactly as many requests, token by token, as the list says. */
  lemma {:induction false} WindowDropsAsListed(p: Picker, events: seq<Event>)
    requires Valid(p) && WellFormed(events) && |Run(p, events).1| == |p.serverList|
    ensures multiset(DroppedTokens(Run(p, events).1)) == multiset(DropTokens(p.serverList))
  {
    PicksWalkServerList(p, events);
    WindowDrops(p.serverList, p.serverListNext, Run(p, events).1);
  }

  /** Between refreshes the second layer is a round robin of its own: the SubConns handed out are
      consecutive ready SubConns, and drops do not use one up. */
  lemma {:induction false} PickedInOrder(p: Picker, events: seq<Event>)
    requires Valid(p) && p.subConns != []
    requires forall i :: 0 <= i < |events| ==> events[i].Pick?
    ensures var (p', results) := Run(p, events);
            && p'.subConns == p.subConns
            && p'.subConnsNext == Nth(p.subConnsNext, |p.subConns|, |Handed(results)|)
            && (forall k :: 0 <= k < |Handed(results)| ==>
                  Handed(results)[k] == p.subConns[Nth(p.subConnsNext, |p.subConns|, k)])
            && |Handed(results)| + |DroppedTokens(results)| == |events|
  {
    if events != [] {
      PickedInOrder(p, events[..|events| - 1]);
      var (_, before) := Run(p, events[..|events| - 1]);
      var (_, results) := Run(p, events);
      assert results[..|results| - 1] == before;
    }
  }

  function Handed(results: seq<Result>): (scs: seq<SubConn>) {
    if results == [] then []
    else Handed(results[..|results| - 1]) + if results[|results| - 1].Picked? then [results[|results| - 1].sc] else []
  }

  // ---- Refreshes ----------------------------------------------------------------------------------

  /** The ready SubConns the picker was told last. */
  ghost function Latest(p: Picker, events: seq<Event>): (ready: seq<SubConn>) {
    if events == [] then p.subConns
    else if events[|events| - 1].UpdateReady? then events[|events| - 1].ready
    else Latest(p, events[..|events| - 1])
  }

  lemma {:induction false} SubConnsAreLatest(p: Picker, events: seq<Event>)
    requires Valid(p) && WellFormed(events)
    ensures Run(p, events).0.subConns == Latest(p, events)
  {
    if events != [] {
      SubConnsAreLatest(p, events[..|events| - 1]);
    }
  }

  /** No pick returns a SubConn that is not in the latest list, and one that is not dropped returns one whenever
      that list is not empty. */
  lemma {:induction false} PickIsReady(p: Picker, events: seq<Event>)
    requires Valid(p) && WellFormed(events) && WellFormed(events + [Pick])
    ensures var before, results := Run(p, events).1, Run(p, events + [Pick]).1;
            && |results| == |before| + 1
            && var last := results[|before|];
               && (last.Picked? ==> last.sc in Latest(p, events))
               && (last.NoSubConnAvailable? ==> Latest(p, events) == [])
  {
    assert (events + [Pick])[..|events|] == events;
    SubConnsAreLatest(p, events);
  }

  lemma RefreshedNext(p: Picker, before: seq<Event>, ready: seq<SubConn>)
    requires Valid(p) && WellFormed(before) && ready != []
    ensures WellFormed(before + [UpdateReady(ready)])
    ensures var p1, p2 := Run(p, before).0, Run(p, before + [UpdateReady(ready)]).0;
            p2.subConns == ready && p2.subConnsNext == p1.subConnsNext % |ready|
  {
    assert (before + [UpdateReady(ready)])[..|before|] == before;
  }

  /** After a refresh the SubConns handed out are the new list in cyclic order, from where the old index falls. */
  lemma {:induction false} RefreshRestarts(p: Picker, before: seq<Event>, ready: seq<SubConn>, picks: seq<Event>)
    requires Valid(p) && WellFormed(before + [UpdateReady(ready)])
    requires forall i :: 0 <= i < |picks| ==> picks[i].Pick?
    ensures ready != [] && WellFormed(before)
    ensures var p1 := Run(p, before).0;
            var p2 := Run(p, before + [UpdateReady(ready)]).0;
            var handed := Handed(Run(p2, picks).1);
            forall k :: 0 <= k < |handed| ==> handed[k] == ready[(p1.subConnsNext + k) % |ready|]
  {
    assert (before + [UpdateReady(ready)])[|before|] == UpdateReady(ready);
    assert WellFormed(before) by {
      assert forall i :: 0 <= i < |before| ==> before[i] == (before + [UpdateReady(ready)])[i];
    }
    RefreshedNext(p, before, ready);
    var p1, p2 := Run(p, before).0, Run(p, before + [UpdateReady(ready)]).0;
    PickedInOrder(p2, picks);
    var handed := Handed(Run(p2, picks).1);
    forall k | 0 <= k < |handed|
      ensures handed[k] == ready[(p1.subConnsNext + k) % |ready|]
    {
      NthIsModulo(p1.subConnsNext, |ready|, k);
    }
  }

  class LbPicker {
    const serverList: seq<Server>
    var serverListNext: nat
    var subConns: seq<SubConn>
    var subConnsNext: nat
    const stats: RpcStats

    function View(): (p: Picker)
      reads this
    {
      Picker(serverList, serverListNext, subConns, subConnsNext)
    }

    /** newLBPicker; `start` is the random index of the source. */
    constructor (list: seq<Server>, ready: seq<SubConn>, start: nat, counters: RpcStats)
      requires list != [] && start < |ready|
      ensures View() == Picker(list, 0, ready, start) && Valid(View()) && stats == counters
    {
      serverList, serverListNext, subConns, subConnsNext, stats := list, 0, ready, start, counters;
    }

    method Pick() returns (result: Result)
      requires Valid(View())
      modifies this, stats
      ensures (View(), result) == Picks(old(View()))
      ensures stats.View() == if result.RequestDropped? then Whole(old(stats.View()), Drop(result.token))
                              else old(stats.View())
    {
      var s := serverList[serverListNext];
      serverListNext := (serverListNext + 1) % |serverList|;
      if s.drop {
        stats.RecordDrop(s.token);
        return RequestDropped(s.token);
      }
      if |subConns| <= 0 {
        return NoSubConnAvailable;
      }
      result := Picked(subConns[subConnsNext]);
      subConnsNext := (subConnsNext + 1) % |subConns|;
    }

    /** The callback handed out with a picked SubConn. */
    method Done(bytesSent: bool, bytesReceived: bool)
      modifies stats
      ensures stats.View() == if !bytesSent then Whole(old(stats.View()), FailToSend)
                              else if bytesReceived then Whole(old(stats.View()), Receive)
                              else old(stats.View())
    {
      if !bytesSent {
        stats.RecordFailedToSend();
      } else if bytesReceived {
        stats.RecordKnownReceived();
      }
    }

    method UpdateReadySCs(ready: seq<SubConn>)
      requires Valid(View()) && ready != []
      modifies this
      ensures View() == Refreshed(old(View()), ready)
    {
      subConns := ready;
      subConnsNext := subConnsNext % |ready|;
    }
  }
}
