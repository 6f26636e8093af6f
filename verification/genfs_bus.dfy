/**
 * The dependency graph's edges and the notification bus, seen as an
 * append-only log of subscriptions and publications.
 */
module Bus {

  /** An event kind; its String() text is the payload of a publication. */
  datatype Event = Event(kind: string)
  {
    function String(): string { kind }
  }

  /** A recorded link: generating `from` consumed `to`, stale when `to` sees `event`. */
  datatype Edge = Edge(from: string, to: string, event: Event)

  /** One step of the bus: a subscription opened on a topic, or a payload published to one. */
  datatype Action = Subscribed(topic: string) | Published(topic: string, payload: string)

  /** The paths that declared a dependency on `path` under `event`. */
  function Dependents(edges: set<Edge>, path: string, event: Event): set<string>
  {
    set e | e in edges && e.to == path && e.event == event :: e.from
  }

  /** What graph.Ins promises: it lists every dependent of (path, event) and nothing else. */
  ghost predicate InsLists(edges: set<Edge>, path: string, event: Event, ins: seq<string>)
  {
    forall n :: n in ins <==> n in Dependents(edges, path, event)
  }

  /** One publication of `payload` to each node, in order. */
  function Publications(nodes: seq<string>, payload: string): seq<Action>
  {
    seq(|nodes|, i requires 0 <= i < |nodes| => Published(nodes[i], payload))
  }

  /** The payloads published to `topic` in `log`, in order. */
  function Deliveries(log: seq<Action>, topic: string): seq<string>
  {
    if log == [] then []
    else (if log[0].Published? && log[0].topic == topic then [log[0].payload] else []) + Deliveries(log[1..], topic)
  }

  /** `count` copies of `p`. */
  function Repeat(p: string, count: nat): (r: seq<string>)
    ensures |r| == count && forall i :: 0 <= i < count ==> r[i] == p
  {
    seq(count, _ => p)
  }

  /** What the subscription opened at position `h` of the log receives: later publications on its topic. */
  function Received(log: seq<Action>, h: nat): seq<string>
    requires h < |log| && log[h].Subscribed?
  {
    Deliveries(log[h + 1..], log[h].topic)
  }

  lemma {:induction false} DeliveriesAppend(a: seq<Action>, b: seq<Action>, topic: string)
    ensures Deliveries(a + b, topic) == Deliveries(a, topic) + Deliveries(b, topic)
  {
    if a == [] {
      assert a + b == b;
    } else {
      assert (a + b)[1..] == a[1..] + b;
      DeliveriesAppend(a[1..], b, topic);
    }
  }

  /** Publishing to a list of nodes delivers to a topic once per occurrence of it in the list. */
  lemma {:induction false} DeliveriesOfPublications(nodes: seq<string>, payload: string, topic: string)
    ensures Deliveries(Publications(nodes, payload), topic) == Repeat(payload, multiset(nodes)[topic])
  {
    if nodes != [] {
      var pubs := Publications(nodes, payload);
      assert pubs[1..] == Publications(nodes[1..], payload);
      assert nodes == [nodes[0]] + nodes[1..];
      assert multiset(nodes) == multiset{nodes[0]} + multiset(nodes[1..]);
      DeliveriesOfPublications(nodes[1..], payload, topic);
    }
  }

  /**
   * A subscription receives, after what it had, one copy of the payload per
   * occurrence of its topic among the nodes published to; other
   * subscriptions are untouched.
   */
  lemma ReceivedAfterPublications(log: seq<Action>, h: nat, nodes: seq<string>, payload: string)
    requires h < |log| && log[h].Subscribed?
    ensures var log' := log + Publications(nodes, payload);
      h < |log'| && log'[h] == log[h] &&
      Received(log', h) == Received(log, h) + Repeat(payload, multiset(nodes)[log[h].topic])
  {
    var log' := log + Publications(nodes, payload);
    assert log'[h + 1..] == log[h + 1..] + Publications(nodes, payload);
    DeliveriesAppend(log[h + 1..], Publications(nodes, payload), log[h].topic);
    DeliveriesOfPublications(nodes, payload, log[h].topic);
  }

  /**
   * A subscription whose topic occurs once among the nodes receives the
   * payload once per trigger: a repeated trigger delivers again, nothing is
   * suppressed as already delivered.
   */
  lemma RepeatedTriggerDeliversAgain(log: seq<Action>, h: nat, nodes: seq<string>, payload: string)
    requires h < |log| && log[h].Subscribed?
    requires multiset(nodes)[log[h].topic] == 1
    ensures var once := log + Publications(nodes, payload);
      Received(once, h) == Received(log, h) + [payload] &&
      Received(once + Publications(nodes, payload), h) == Received(log, h) + [payload, payload]
  {
    var once := log + Publications(nodes, payload);
    ReceivedAfterPublications(log, h, nodes, payload);
    ReceivedAfterPublications(once, h, nodes, payload);
  }

  /**
   * When Ins lists the dependents, publishing the event to Ins reaches a
   * topic exactly when that topic declared a link to (path, event), and
   * every publication carries the event's text.
   */
  lemma PublicationsReachDependents(edges: set<Edge>, path: string, event: Event, ins: seq<string>, topic: string)
    requires InsLists(edges, path, event, ins)
    ensures |Deliveries(Publications(ins, event.String()), topic)| > 0 <==> topic in Dependents(edges, path, event)
    ensures forall p :: p in Deliveries(Publications(ins, event.String()), topic) ==> p == event.String()
  {
    DeliveriesOfPublications(ins, event.String(), topic);
  }

  /** After Link(from, to, event), `from` is among the dependents of (to, event), and no other pair gains one. */
  lemma LinkAddsDependent(edges: set<Edge>, from: string, to: string, event: Event, path: string, other: Event)
    ensures from in Dependents(edges + {Edge(from, to, event)}, to, event)
    ensures (path, other) != (to, event) ==>
              Dependents(edges + {Edge(from, to, event)}, path, other) == Dependents(edges, path, other)
  {
    assert Edge(from, to, event) in edges + {Edge(from, to, event)};
  }
}
