// Sessions, subscriptions and delivery in the MQTT broker. Sending to a socket
// is left out: what counts is what is queued for a session.
module MqttBroker {
  import opened Options
  import opened MqttLength
  import opened MqttCodec

  type Name = seq<Byte>
  type Session = nat

  datatype Message = Message(id: nat, bytes: seq<Byte>)

  // CTopicNode
  datatype Node = Node(retained: Option<Message>, subscribers: set<Session>)

  // CTMqttClientContext
  datatype Context = Context(client: Name, connected: bool, online: bool, clean: bool, topics: seq<Topic>, queue: seq<Message>, lastAcked: nat)

  function NewContext(): Context { Context([], false, true, false, [], [], 0) }

  // The topics of a session, with those of a further subscribe.
  function WithTopics(topics: seq<Topic>, more: seq<Topic>): seq<Topic> {
    if more == [] then topics
    else
      var before := WithTopics(topics, more[..|more| - 1]);
      var t := more[|more| - 1];
      if t in before then before else before + [t]
  }

  predicate Lists(topics: seq<Topic>, name: Name) { exists i :: 0 <= i < |topics| && topics[i].name == name }

  lemma {:induction false} WithTopicsLists(topics: seq<Topic>, more: seq<Topic>, name: Name)
    ensures Lists(WithTopics(topics, more), name) <==> Lists(topics, name) || Lists(more, name)
  {
    if more != [] {
      var n := |more| - 1;
      var rest, t := more[..n], more[n];
      WithTopicsLists(topics, rest, name);
      var before := WithTopics(topics, rest);
      assert more == rest + [t];
      ListsSnoc(rest, t, name);
      ListsSnoc(before, t, name);
      if t in before && t.name == name { var i :| 0 <= i < |before| && before[i] == t; }
    }
  }

  lemma ListsSnoc(topics: seq<Topic>, t: Topic, name: Name)
    ensures Lists(topics + [t], name) <==> Lists(topics, name) || t.name == name
  {
    var all := topics + [t];
    if Lists(topics, name) { var i :| 0 <= i < |topics| && topics[i].name == name; assert all[i].name == name; }
    if t.name == name { assert all[|topics|].name == name; }
  }

  // add_subcribe_topics
  method AddTopics(topics: seq<Topic>, more: seq<Topic>) returns (r: seq<Topic>)
    ensures r == WithTopics(topics, more)
  {
    r := topics;
    for i := 0 to |more|
      invariant r == WithTopics(topics, more[..i])
    {
      assert more[..i + 1][..i] == more[..i];
      if more[i] !in r { r := r + [more[i]]; }
    }
    assert more[..|more|] == more;
  }

  // The ids in a queue lie close together.
  predicate Near(queue: seq<Message>) {
    forall x, y :: 0 <= x < |queue| && 0 <= y < |queue| ==> queue[x].id - queue[y].id < 65536
  }

  // Then 16 bits name at most one of them.
  lemma AckNamesOne(queue: seq<Message>, i: nat, j: nat)
    requires i < |queue| && j < |queue| && Near(queue) && queue[i].id % 65536 == queue[j].id % 65536
    ensures queue[i].id == queue[j].id
  {
    var a, b := queue[i].id, queue[j].id;
    assert a - b < 65536 && b - a < 65536;
  }

  // m queued for each of the sessions in cs.
  function Delivered(contexts: map<Session, Context>, cs: set<Session>, m: Message): (r: map<Session, Context>)
    ensures r.Keys == contexts.Keys
  {
    map c | c in contexts :: if c in cs then contexts[c].(queue := contexts[c].queue + [m]) else contexts[c]
  }

  function Grown(queued: map<Session, seq<Message>>, cs: set<Session>, m: Message): map<Session, seq<Message>> {
    map c | c in queued :: if c in cs then queued[c] + [m] else queued[c]
  }

  // c taken out of the subscribers of the named topics.
  function Removed(nodes: map<Name, Node>, names: seq<Name>, c: Session): map<Name, Node> {
    map name | name in nodes :: if name in names then nodes[name].(subscribers := nodes[name].subscribers - {c}) else nodes[name]
  }

  function NamesOf(topics: seq<Topic>): seq<Name> {
    seq(|topics|, i requires 0 <= i < |topics| => topics[i].name)
  }

  lemma ListedName(topics: seq<Topic>, name: Name)
    ensures Lists(topics, name) ==> name in NamesOf(topics)
  {
    if Lists(topics, name) {
      var i :| 0 <= i < |topics| && topics[i].name == name;
      assert NamesOf(topics)[i] == name;
    }
  }

  lemma RemovedMore(nodes: map<Name, Node>, names: seq<Name>, name: Name, c: Session)
    ensures Removed(Removed(nodes, names, c), [name], c) == Removed(nodes, names + [name], c)
  {
    var l, r := Removed(Removed(nodes, names, c), [name], c), Removed(nodes, names + [name], c);
    forall x | x in nodes ensures l[x] == r[x] {
      assert x in names + [name] <==> x in names || x in [name];
      assert nodes[x].subscribers - {c} - {c} == nodes[x].subscribers - {c};
    }
  }

  lemma RemovedNone(nodes: map<Name, Node>, c: Session)
    ensures Removed(nodes, [], c) == nodes
  {
  }

  lemma NoneYet(contexts: map<Session, Context>, queued: map<Session, seq<Message>>, m: Message)
    ensures Delivered(contexts, {}, m) == contexts && Grown(queued, {}, m) == queued
  {
  }

  // The index, the sessions and everything ever queued for them.
  datatype Index = Index(nodes: map<Name, Node>, contexts: map<Session, Context>, queued: map<Session, seq<Message>>)

  // Session c subscribed to one topic: in its set, with its retained message.
  function Subscribed(x: Index, c: Session, name: Name): Index {
    var node := if name in x.nodes then x.nodes[name] else Node(None, {});
    var told := if node.retained.Some? && c in x.contexts && x.contexts[c].online then {c} else {};
    var m := if node.retained.Some? then node.retained.value else Message(0, []);
    Index(x.nodes[name := node.(subscribers := node.subscribers + {c})], Delivered(x.contexts, told, m), Grown(x.queued, told, m))
  }

  function SubscribedAll(x: Index, c: Session, topics: seq<Topic>): Index {
    if topics == [] then x else Subscribed(SubscribedAll(x, c, topics[..|topics| - 1]), c, topics[|topics| - 1].name)
  }

  // ----- what the operations are for -----

  ghost predicate Subscribes(nodes: map<Name, Node>, name: Name, d: Session) { name in nodes && d in nodes[name].subscribers }

  // Exactly session c leaves exactly the named topics; topics and retained
  // messages stay.
  ghost predicate OnlyLeaves(before: map<Name, Node>, after: map<Name, Node>, names: seq<Name>, c: Session) {
    && after.Keys == before.Keys && (forall name :: name in after ==> after[name].retained == before[name].retained)
    && (forall name, d :: Subscribes(after, name, d) <==> Subscribes(before, name, d) && !(d == c && name in names))
  }

  // Exactly session c joins exactly the named topics; retained messages stay,
  // and a new topic has none.
  ghost predicate OnlyJoins(before: map<Name, Node>, after: map<Name, Node>, topics: seq<Topic>, c: Session) {
    && (forall name, d :: Subscribes(after, name, d) <==> Subscribes(before, name, d) || (d == c && Lists(topics, name)))
    && (forall name :: name in after <==> name in before || Lists(topics, name))
    && (forall name :: name in after ==> after[name].retained == RetainedAt(before, name))
  }

  function RetainedAt(nodes: map<Name, Node>, name: Name): Option<Message> { if name in nodes then nodes[name].retained else None }

  // The retained messages of some topics, in the order of the topics.
  function RetainedOf(nodes: map<Name, Node>, topics: seq<Topic>): seq<Message> {
    if topics == [] then []
    else
      var n := |topics| - 1;
      RetainedOf(nodes, topics[..n])
      + match RetainedAt(nodes, topics[n].name) case None => [] case Some(m) => [m]
  }

  // Exactly the sessions subscribed to a topic get the message, once, at the
  // end of their queues.
  ghost predicate OnlyReceive(nodes: map<Name, Node>, name: Name, m: Message, before: map<Session, Context>, after: map<Session, Context>) {
    && after.Keys == before.Keys
    && forall d :: d in after ==> after[d] == before[d].(queue := before[d].queue + if Subscribes(nodes, name, d) then [m] else [])
  }

  // A publish changes no subscription; it replaces or clears the retained
  // message of its own topic if it is to be retained.
  ghost predicate OnlyRetains(before: map<Name, Node>, after: map<Name, Node>, name: Name, m: Message, retain: bool, empty: bool) {
    && (forall x, d :: Subscribes(after, x, d) <==> Subscribes(before, x, d))
    && (forall x :: x in after <==> x in before || x == name)
    && (forall x :: x in after ==>
          after[x].retained == if x != name || !retain then RetainedAt(before, x) else if empty then None else Some(m))
  }

  lemma RemovedLeaves(nodes: map<Name, Node>, names: seq<Name>, c: Session)
    ensures OnlyLeaves(nodes, Removed(nodes, names, c), names, c)
  {
  }

  lemma DeliveredReceive(nodes: map<Name, Node>, name: Name, m: Message, contexts: map<Session, Context>)
    ensures OnlyReceive(nodes, name, m, contexts, Delivered(contexts, if name in nodes then nodes[name].subscribers else {}, m))
  {
    var after := Delivered(contexts, if name in nodes then nodes[name].subscribers else {}, m);
    forall d | d in after ensures after[d] == contexts[d].(queue := contexts[d].queue + if Subscribes(nodes, name, d) then [m] else []) {
      assert contexts[d].queue + [] == contexts[d].queue;
    }
  }

  lemma PublishedRetains(nodes: map<Name, Node>, name: Name, m: Message, p: MqttCodec.Publish)
    ensures OnlyRetains(nodes, Published(nodes, name, m, p), name, m, p.header.retain, p.payload == [])
  {
  }

  // Exactly session c gets some messages at the end of its queue.
  ghost predicate OnlyBrought(before: map<Session, Context>, after: map<Session, Context>, c: Session, ms: seq<Message>) {
    && after.Keys == before.Keys
    && forall d :: d in after ==> after[d] == before[d].(queue := before[d].queue + if d == c then ms else [])
  }

  lemma BroughtNothing(contexts: map<Session, Context>, c: Session)
    ensures OnlyBrought(contexts, contexts, c, [])
  {
    forall d | d in contexts ensures contexts[d] == contexts[d].(queue := contexts[d].queue + []) {
      assert contexts[d].queue + [] == contexts[d].queue;
    }
  }

  lemma BroughtMore(x: map<Session, Context>, y: map<Session, Context>, z: map<Session, Context>, c: Session, a: seq<Message>, b: seq<Message>)
    requires OnlyBrought(x, y, c, a) && OnlyBrought(y, z, c, b)
    ensures OnlyBrought(x, z, c, a + b)
  {
    forall d | d in z ensures z[d] == x[d].(queue := x[d].queue + if d == c then a + b else []) {
      assert x[d].queue + a + b == x[d].queue + (a + b);
      assert x[d].queue + [] + [] == x[d].queue + [];
    }
  }

  function ToldOf(nodes: map<Name, Node>, topics: seq<Topic>, online: bool): seq<Message> { if online then RetainedOf(nodes, topics) else [] }

  // A subscribe joins exactly its topics, and brings an online session their
  // retained messages.
  lemma {:induction false} SubscribedAllJoins(x: Index, c: Session, topics: seq<Topic>)
    requires c in x.contexts
    ensures var y := SubscribedAll(x, c, topics);
      OnlyJoins(x.nodes, y.nodes, topics, c) && OnlyBrought(x.contexts, y.contexts, c, ToldOf(x.nodes, topics, x.contexts[c].online))
  {
    hide OnlyJoins, OnlyBrought, Subscribed, ToldOf;
    if topics == [] {
      NothingJoined(x, c);
    } else {
      var n := |topics| - 1;
      var some, t := topics[..n], topics[n];
      var y := SubscribedAll(x, c, some);
      var told := ToldOf(x.nodes, some, x.contexts[c].online);
      SubscribedAllJoins(x, c, some);
      assert topics == some + [t];
      StillOnline(x.contexts, y.contexts, c, told);
      SubscribedJoins(y, c, t.name);
      JoinsMore(x.nodes, y.nodes, SubscribedAll(x, c, topics).nodes, some, t, c);
      BroughtMore(x.contexts, y.contexts, SubscribedAll(x, c, topics).contexts, c, told, NewsOf(y, c, t.name));
      QueuesMore(x, y, c, some, t);
    }
  }

  lemma NothingJoined(x: Index, c: Session)
    requires c in x.contexts
    ensures OnlyJoins(x.nodes, x.nodes, [], c) && OnlyBrought(x.contexts, x.contexts, c, ToldOf(x.nodes, [], x.contexts[c].online))
  {
    BroughtNothing(x.contexts, c);
  }

  lemma StillOnline(x: map<Session, Context>, y: map<Session, Context>, c: Session, ms: seq<Message>)
    requires OnlyBrought(x, y, c, ms) && c in x
    ensures c in y && y[c].online == x[c].online
  {
  }

  // What a subscribe to one topic brings.
  function NewsOf(x: Index, c: Session, name: Name): seq<Message>
    requires c in x.contexts
  {
    if x.contexts[c].online && RetainedAt(x.nodes, name).Some? then [RetainedAt(x.nodes, name).value] else []
  }

  lemma SubscribedJoins(x: Index, c: Session, name: Name)
    requires c in x.contexts
    ensures var y := Subscribed(x, c, name);
      && (forall other, d :: Subscribes(y.nodes, other, d) <==> Subscribes(x.nodes, other, d) || (d == c && other == name))
      && (forall other :: other in y.nodes <==> other in x.nodes || other == name)
      && (forall other :: other in y.nodes ==> y.nodes[other].retained == RetainedAt(x.nodes, other))
      && OnlyBrought(x.contexts, y.contexts, c, NewsOf(x, c, name))
  {
    BroughtNothing(x.contexts, c);
  }

  lemma JoinsMore(a: map<Name, Node>, b: map<Name, Node>, z: map<Name, Node>, some: seq<Topic>, t: Topic, c: Session)
    requires OnlyJoins(a, b, some, c)
    requires forall other, d :: Subscribes(z, other, d) <==> Subscribes(b, other, d) || (d == c && other == t.name)
    requires forall other :: other in z <==> other in b || other == t.name
    requires forall other :: other in z ==> z[other].retained == RetainedAt(b, other)
    ensures OnlyJoins(a, z, some + [t], c)
  {
    forall name ensures Lists(some + [t], name) <==> Lists(some, name) || t.name == name { ListsSnoc(some, t, name); }
    hide Lists;
  }

  lemma QueuesMore(x: Index, y: Index, c: Session, some: seq<Topic>, t: Topic)
    requires c in x.contexts && c in y.contexts && y.contexts[c].online == x.contexts[c].online && OnlyJoins(x.nodes, y.nodes, some, c)
    ensures ToldOf(x.nodes, some + [t], x.contexts[c].online) == ToldOf(x.nodes, some, x.contexts[c].online) + NewsOf(y, c, t.name)
  {
    hide Lists;
    var all := some + [t];
    assert all[..|all| - 1] == some && all[|all| - 1] == t;
  }

  // What has been queued is only ever added to.
  ghost predicate Grows(a: map<Session, seq<Message>>, b: map<Session, seq<Message>>) {
    forall c :: c in a ==> c in b && a[c] <= b[c]
  }

  // Subscribing to further topics keeps earlier subscriptions, all topic lists
  // and everything ever queued.
  lemma {:induction false} SubscribedAllKeeps(x: Index, c: Session, topics: seq<Topic>)
    ensures var y := SubscribedAll(x, c, topics);
      && (forall i :: 0 <= i < |topics| ==> topics[i].name in y.nodes && c in y.nodes[topics[i].name].subscribers)
      && (forall name :: name in x.nodes ==> name in y.nodes && x.nodes[name].subscribers <= y.nodes[name].subscribers <= x.nodes[name].subscribers + {c})
      && y.contexts.Keys == x.contexts.Keys && Grows(x.queued, y.queued)
      && (forall d :: d in x.contexts ==> y.contexts[d].topics == x.contexts[d].topics && (d != c ==> y.contexts[d] == x.contexts[d]))
  {
    if topics != [] { SubscribedAllKeeps(x, c, topics[..|topics| - 1]); }
  }

  lemma GrowsSame(queued: map<Session, seq<Message>>)
    ensures Grows(queued, queued)
  {
  }

  lemma GrownGrows(queued: map<Session, seq<Message>>, cs: set<Session>, m: Message)
    ensures Grows(queued, Grown(queued, cs, m))
  {
  }

  // A publish that is to be retained replaces the retained message of its
  // topic, or clears it if it is empty.
  function Published(nodes: map<Name, Node>, name: Name, m: Message, p: MqttCodec.Publish): map<Name, Node> {
    var node := if name in nodes then nodes[name] else Node(None, {});
    nodes[name := if p.header.retain then node.(retained := if p.payload == [] then None else Some(m)) else node]
  }

  lemma OneMore(contexts: map<Session, Context>, queued: map<Session, seq<Message>>, cs: set<Session>, c: Session, m: Message)
    requires c !in cs
    ensures Delivered(Delivered(contexts, cs, m), {c}, m) == Delivered(contexts, cs + {c}, m)
    ensures Grown(Grown(queued, cs, m), {c}, m) == Grown(queued, cs + {c}, m)
  {
  }

  class Broker {
    var nodes: map<Name, Node>
    var contexts: map<Session, Context>
    var clients: map<Name, Session>
    var lastId: nat

    ghost var queued: map<Session, seq<Message>>   // everything ever queued for a session
    ghost var acked: map<Session, nat>             // how much of it has been acknowledged

    constructor (startId: nat)
      ensures Valid() && nodes == map[] && contexts == map[] && clients == map[] && lastId == startId
    {
      nodes, contexts, clients, lastId := map[], map[], map[], startId;
      queued, acked := map[], map[];
    }

    // Everything queued is an acknowledged prefix followed by the queue.
    ghost predicate Conserved(c: Session)
      reads this
    {
      c in contexts && c in queued && c in acked ==>
        && acked[c] <= |queued[c]| && queued[c][acked[c]..] == contexts[c].queue
    }

    // A subscriber of a topic has it in its own list.
    ghost predicate Contained(name: Name, c: Session)
      reads this
    {
      name in nodes && c in nodes[name].subscribers ==> c in contexts && Lists(contexts[c].topics, name)
    }

    ghost predicate Valid()
      reads this
    {
      && contexts.Keys == queued.Keys == acked.Keys
      && (forall c :: Conserved(c))
      && (forall name, c :: Contained(name, c))
      && (forall client :: client in clients ==> clients[client] in contexts)
    }

    // add_send_msg
    method Enqueue(c: Session, m: Message)
      requires Valid() && c in contexts
      modifies `contexts, `queued
      ensures Valid() && contexts == Delivered(old(contexts), {c}, m) && queued == Grown(old(queued), {c}, m) && Grows(old(queued), queued)
    {
      assert Conserved(c);
      contexts := contexts[c := contexts[c].(queue := contexts[c].queue + [m])];
      queued := queued[c := queued[c] + [m]];
      forall x ensures Conserved(x) { assert old(Conserved(x)); }
      forall name, x ensures Contained(name, x) { assert old(Contained(name, x)); }
    }

    // A new connection has a session of its own until it says who it is.
    method Open(c: Session)
      requires Valid() && c !in contexts
      modifies `contexts, `queued, `acked
      ensures Valid() && contexts == old(contexts)[c := NewContext()] && queued == old(queued)[c := []] && acked == old(acked)[c := 0]
      ensures Grows(old(queued), queued)
    {
      contexts, queued, acked := contexts[c := NewContext()], queued[c := []], acked[c := 0];
      forall x ensures Conserved(x) { assert old(Conserved(x)); }
      forall name, x ensures Contained(name, x) { assert old(Contained(name, x)); }
    }

    // handle_connect_msg: a session of the client is taken up again, with its
    // queue, after its old connection, if there is one, has been closed;
    // otherwise the connection's own session becomes the client's. A clean
    // session that is taken over is not registered again.
    method Connect(c: Session, client: Name, clean: bool) returns (session: Session)
      requires Valid() && c in contexts
      modifies `nodes, `contexts, `clients
      ensures Valid()
      ensures client == [] ==> session == c && contexts == old(contexts) && clients == old(clients) && nodes == old(nodes)
      ensures client != [] ==>
        && session == (if client in old(clients) then old(clients)[client] else c) && session in old(contexts)
        && var was := old(contexts)[session];
           var closed := client in old(clients) && was.online && was.clean;
           && clients == (if closed then old(clients) - {was.client} else old(clients)[client := session])
           && nodes == (if closed then Removed(old(nodes), NamesOf(was.topics), session) else old(nodes))
           && contexts == old(contexts)[session := was.(client := client, connected := true, online := true, clean := clean)]
    {
      hide Removed, NamesOf, Valid;
      if client == [] { return c; }
      var found := client in clients;
      session := c;
      if found {
        session := clients[client];
        Registered(client);
        if contexts[session].online { Close(session); }
      }
      Init(session, client, clean, !found);
    }

    lemma Registered(client: Name)
      requires Valid() && client in clients
      ensures clients[client] in contexts
    {
    }

    method Init(session: Session, client: Name, clean: bool, register: bool)
      requires Valid() && session in contexts
      modifies `contexts, `clients
      ensures Valid() && clients == if register then old(clients)[client := session] else old(clients)
      ensures contexts == old(contexts)[session := old(contexts)[session].(client := client, connected := true, online := true, clean := clean)]
    {
      contexts := contexts[session := contexts[session].(client := client, connected := true, online := true, clean := clean)];
      if register { clients := clients[client := session]; }
      forall x ensures Conserved(x) { assert old(Conserved(x)); }
      forall name, x ensures Contained(name, x) { assert old(Contained(name, x)); }
    }

    // add_client_context: the subscriber set, and the retained message.
    method AddSubscriber(name: Name, c: Session)
      requires Valid() && c in contexts && Lists(contexts[c].topics, name)
      modifies `nodes, `contexts, `queued
      ensures Valid() && Index(nodes, contexts, queued) == old(Subscribed(Index(nodes, contexts, queued), c, name))
    {
      NoneYet(contexts, queued, if name in nodes && nodes[name].retained.Some? then nodes[name].retained.value else Message(0, []));
      if name !in nodes {
        nodes := nodes[name := Node(None, {c})];
        assert {} + {c} == {c};
        forall x ensures Conserved(x) { assert old(Conserved(x)); }
        forall other, x ensures Contained(other, x) { assert old(Contained(other, x)); }
      } else {
        nodes := nodes[name := nodes[name].(subscribers := nodes[name].subscribers + {c})];
        forall x ensures Conserved(x) { assert old(Conserved(x)); }
        forall other, x ensures Contained(other, x) { assert old(Contained(other, x)); }
        if nodes[name].retained.Some? && contexts[c].online {
          Enqueue(c, nodes[name].retained.value);
        }
      }
    }

    // del_client_context
    method RemoveSubscriber(name: Name, c: Session)
      requires Valid()
      modifies `nodes
      ensures Valid()
      ensures nodes == Removed(old(nodes), [name], c)
    {
      if name in nodes {
        nodes := nodes[name := nodes[name].(subscribers := nodes[name].subscribers - {c})];
      }
      forall x ensures Conserved(x) { assert old(Conserved(x)); }
      forall other, x ensures Contained(other, x) { assert old(Contained(other, x)); }
    }

    // ack_msg: only the message at the head of the queue can be acknowledged.
    method Ack(c: Session, id: nat)
      requires Valid() && c in contexts
      modifies `contexts, `acked
      ensures Valid()
      ensures var x := old(contexts)[c];
        if x.queue != [] && x.queue[0].id % 65536 == id
        then contexts == old(contexts)[c := x.(queue := x.queue[1..], lastAcked := x.queue[0].id)] && acked == old(acked)[c := (if c in old(acked) then old(acked)[c] else 0) + 1]
        else contexts == old(contexts) && acked == old(acked)
      ensures var x := old(contexts)[c];
        Near(x.queue) && x.queue != [] && x.queue[0].id % 65536 == id ==>
          forall i :: 0 <= i < |x.queue| && x.queue[i].id % 65536 == id ==> x.queue[i].id == contexts[c].lastAcked
    {
      var x := contexts[c];
      if Near(x.queue) {
        forall i | 0 <= i < |x.queue| && x.queue[i].id % 65536 == id && x.queue[0].id % 65536 == id ensures x.queue[i].id == x.queue[0].id {
          AckNamesOne(x.queue, i, 0);
        }
      }
      if x.queue != [] && x.queue[0].id % 65536 == id {
        assert Conserved(c);
        contexts := contexts[c := x.(queue := x.queue[1..], lastAcked := x.queue[0].id)];
        acked := acked[c := acked[c] + 1];
        forall y ensures Conserved(y) { assert old(Conserved(y)); }
        forall other, y ensures Contained(other, y) { assert old(Contained(other, y)); }
      }
    }

    // handle_subscribe_msg: the session's own list first, then the index.
    method Subscribe(c: Session, topics: seq<Topic>) returns (code: int)
      requires Valid() && c in contexts
      modifies `nodes, `contexts, `queued
      ensures Valid() && code == if old(contexts)[c].connected then 0 else -1
      ensures !old(contexts)[c].connected ==> contexts == old(contexts) && nodes == old(nodes)
      ensures old(contexts)[c].connected ==>
        var x := old(contexts)[c];
        var listed := old(contexts)[c := x.(topics := WithTopics(x.topics, topics))];
        Index(nodes, contexts, queued) == SubscribedAll(Index(old(nodes), listed, old(queued)), c, topics)
      ensures old(contexts)[c].connected ==> OnlyJoins(old(nodes), nodes, topics, c)
      ensures contexts.Keys == old(contexts).Keys
      ensures old(contexts)[c].connected ==>
        contexts[c].queue == old(contexts)[c].queue + if old(contexts)[c].online then RetainedOf(old(nodes), topics) else []
      ensures forall d :: d in contexts && d != c ==> d in old(contexts) && contexts[d] == old(contexts)[d]
      ensures Grows(old(queued), queued) && (!old(contexts)[c].connected ==> queued == old(queued))
    {
      hide Valid, SubscribedAll, WithTopics, Grows, Lists, OnlyJoins, RetainedOf;
      GrowsSame(queued);
      if !contexts[c].connected { return -1; }
      ListTopics(c, topics);
      SubscribedAllKeeps(Index(nodes, contexts, queued), c, topics);
      SubscribedAllJoins(Index(nodes, contexts, queued), c, topics);
      AddSubscribers(c, topics);
      assert contexts[c].queue + [] == contexts[c].queue;
      return 0;
    }

    // The session's own list.
    method ListTopics(c: Session, topics: seq<Topic>)
      requires Valid() && c in contexts
      modifies `contexts
      ensures Valid() && contexts == old(contexts)[c := old(contexts)[c].(topics := WithTopics(old(contexts)[c].topics, topics))]
      ensures forall i :: 0 <= i < |topics| ==> Lists(contexts[c].topics, topics[i].name)
    {
      var all := AddTopics(contexts[c].topics, topics);
      contexts := contexts[c := contexts[c].(topics := all)];
      forall x ensures Conserved(x) { assert old(Conserved(x)); }
      forall name, x ensures Contained(name, x) {
        assert old(Contained(name, x));
        WithTopicsLists(old(contexts)[c].topics, topics, name);
      }
      forall i | 0 <= i < |topics| ensures Lists(all, topics[i].name) {
        WithTopicsLists(old(contexts)[c].topics, topics, topics[i].name);
      }
    }

    method AddSubscribers(c: Session, topics: seq<Topic>)
      requires Valid() && c in contexts && (forall i :: 0 <= i < |topics| ==> Lists(contexts[c].topics, topics[i].name))
      modifies `nodes, `contexts, `queued
      ensures Valid() && Index(nodes, contexts, queued) == old(SubscribedAll(Index(nodes, contexts, queued), c, topics))
    {
      hide Valid, Subscribed;
      ghost var x := Index(nodes, contexts, queued);
      for i := 0 to |topics|
        invariant Valid() && Index(nodes, contexts, queued) == SubscribedAll(x, c, topics[..i])
      {
        assert topics[..i + 1][..i] == topics[..i];
        SubscribedAllKeeps(x, c, topics[..i]);
        AddSubscriber(topics[i].name, c);
      }
      assert topics[..|topics|] == topics;
    }

    // handle_unsubscribe_msg, which leaves the session's own list alone.
    method Unsubscribe(c: Session, names: seq<Name>) returns (code: int)
      requires Valid() && c in contexts
      modifies `nodes
      ensures Valid()
      ensures !contexts[c].connected ==> code == -1 && nodes == old(nodes)
      ensures contexts[c].connected ==> code == 0 && OnlyLeaves(old(nodes), nodes, names, c)
    {
      if !contexts[c].connected { return -1; }
      RemovedLeaves(nodes, names, c);
      RemoveFrom(c, names);
      return 0;
    }

    method RemoveFrom(c: Session, names: seq<Name>)
      requires Valid()
      modifies `nodes
      ensures Valid()
      ensures nodes == Removed(old(nodes), names, c)
    {
      hide Valid, Removed;
      RemovedNone(nodes, c);
      for i := 0 to |names|
        invariant Valid()
        invariant nodes == Removed(old(nodes), names[..i], c)
      {
        assert names[..i + 1] == names[..i] + [names[i]];
        RemovedMore(old(nodes), names[..i], names[i], c);
        RemoveSubscriber(names[i], c);
      }
      assert names[..|names|] == names;
    }

    // handle_publish_msg: a publish from a connected session gets the next id,
    // in its bytes too, and goes to the subscribers of its topic.
    method HandlePublish(c: Session, packet: seq<Byte>) returns (code: int, count: nat)
      requires Valid() && c in contexts
      modifies `nodes, `contexts, `queued, `lastId
      ensures Valid() && Grows(old(queued), queued)
      ensures var d := DecodePublish(packet);
        if !old(contexts)[c].connected || d == None
        then code == -1 && nodes == old(nodes) && contexts == old(contexts) && queued == old(queued) && lastId == old(lastId)
        else
          var m := Message(lastId, Renumber(packet, d.value, lastId % 65536));
          var subs := if d.value.topic in old(nodes) then old(nodes)[d.value.topic].subscribers else {};
          && code == 0 && lastId == old(lastId) + 1 && count == |subs|
          && OnlyReceive(old(nodes), d.value.topic, m, old(contexts), contexts) && queued == Grown(old(queued), subs, m)
          && OnlyRetains(old(nodes), nodes, d.value.topic, m, d.value.header.retain, d.value.payload == [])
          && DecodePublish(m.bytes) == Some(d.value.(id := lastId % 65536))
    {
      hide DecodePublish, Renumber, Valid, Delivered, Grown, Published, OnlyReceive, OnlyRetains;
      count := 0;
      if !contexts[c].connected { return -1, 0; }
      var d := DecodePublish(packet);
      if d == None { return -1, 0; }
      lastId := NextId();
      var m := Message(lastId, Renumber(packet, d.value, lastId % 65536));
      Renumbered(packet, d.value, lastId % 65536);
      count := Publish(d.value.topic, m, d.value);
      return 0, count;
    }

    // next_msg_id
    method NextId() returns (id: nat)
      requires Valid()
      modifies `lastId
      ensures Valid() && id == lastId == old(lastId) + 1
    {
      lastId := lastId + 1;
      forall x ensures Conserved(x) { assert old(Conserved(x)); }
      forall other, x ensures Contained(other, x) { assert old(Contained(other, x)); }
      return lastId;
    }

    // publish: the retained message, and one copy for each subscriber, whose
    // number is returned.
    method Publish(name: Name, m: Message, p: MqttCodec.Publish) returns (count: nat)
      requires Valid()
      modifies `nodes, `contexts, `queued
      ensures Valid() && Grows(old(queued), queued)
      ensures var subs := if name in old(nodes) then old(nodes)[name].subscribers else {};
        && count == |subs|
        && contexts == Delivered(old(contexts), subs, m) && queued == Grown(old(queued), subs, m)
        && nodes == Published(old(nodes), name, m, p)
      ensures OnlyReceive(old(nodes), name, m, old(contexts), contexts)
      ensures OnlyRetains(old(nodes), nodes, name, m, p.header.retain, p.payload == [])
    {
      DeliveredReceive(nodes, name, m, contexts);
      PublishedRetains(nodes, name, m, p);
      var known := name in nodes;
      var node := if known then nodes[name] else Node(None, {});
      if p.header.retain { node := node.(retained := if p.payload == [] then None else Some(m)); }
      nodes := nodes[name := node];
      forall x ensures Conserved(x) { assert old(Conserved(x)); }
      forall other, x ensures Contained(other, x) { assert old(Contained(other, x)); }
      forall x | x in node.subscribers ensures x in contexts { assert Contained(name, x); }
      count := 0;
      if known { count := Deliver(node.subscribers, m); }
      else { NoneYet(contexts, queued, m); }
    }

    // The loop over the subscribers, in any order.
    method Deliver(subs: set<Session>, m: Message) returns (count: nat)
      requires Valid() && subs <= contexts.Keys
      modifies `contexts, `queued
      ensures Valid() && count == |subs| && contexts == Delivered(old(contexts), subs, m) && queued == Grown(old(queued), subs, m)
      ensures Grows(old(queued), queued)
    {
      hide Valid, Delivered, Grown;
      var todo, done := subs, {};
      count := 0;
      NoneYet(contexts, queued, m);
      while todo != {}
        invariant Valid() && todo !! done && todo + done == subs && count == |done|
        invariant contexts == Delivered(old(contexts), done, m) && queued == Grown(old(queued), done, m)
        decreases todo
      {
        var c :| c in todo;
        OneMore(old(contexts), old(queued), done, c, m);
        count := count + 1;
        Enqueue(c, m);
        todo, done := todo - {c}, done + {c};
      }
      GrownGrows(old(queued), subs, m);
    }

    // handle_close: with a clean session, no subscription is left.
    method Close(c: Session)
      requires Valid() && c in contexts
      modifies `nodes, `contexts, `clients
      ensures Valid() && contexts == old(contexts)[c := old(contexts)[c].(online := false)]
      ensures old(contexts)[c].clean ==> nodes == Removed(old(nodes), NamesOf(old(contexts)[c].topics), c)
      ensures old(contexts)[c].clean ==> OnlyLeaves(old(nodes), nodes, NamesOf(old(contexts)[c].topics), c)
      ensures old(contexts)[c].clean ==> forall name :: name in nodes ==> c !in nodes[name].subscribers
      ensures old(contexts)[c].clean ==> clients == old(clients) - {old(contexts)[c].client}
      ensures !old(contexts)[c].clean ==> nodes == old(nodes) && clients == old(clients)
    {
      var x := contexts[c];
      if x.clean {
        RemovedLeaves(nodes, NamesOf(x.topics), c);
        RemoveFrom(c, NamesOf(x.topics));
        forall name | name in nodes ensures c !in nodes[name].subscribers {
          assert Contained(name, c);
          ListedName(x.topics, name);
        }
      }
      label before:
      if x.clean { clients := clients - {x.client}; }
      contexts := contexts[c := x.(online := false)];
      forall y ensures Conserved(y) { assert old@before(Conserved(y)); }
      forall name, y ensures Contained(name, y) { assert old@before(Contained(name, y)); }
    }
  }

  // ----- sessions together -----

  // A retained publish, and then a subscribe by an online session: the publish
  // is the last message in the queue of the session, with its new id.
  method PublishThenSubscribe(b: Broker, publisher: Session, packet: seq<Byte>, c: Session, t: Topic)
    requires b.Valid() && publisher in b.contexts && c in b.contexts && b.contexts[publisher].connected
    requires b.contexts[c].connected && b.contexts[c].online
    requires var d := DecodePublish(packet); d.Some? && d.value.header.retain && d.value.payload != [] && d.value.topic == t.name
    modifies b
    ensures b.Valid() && c in b.contexts
    ensures var queue := b.contexts[c].queue;
      && |queue| > |old(b.contexts)[c].queue| && queue[|queue| - 1].id == b.lastId
      && DecodePublish(queue[|queue| - 1].bytes) == Some(DecodePublish(packet).value.(id := b.lastId % 65536))
  {
    hide DecodePublish, Renumber, Broker.Valid, Grown, OnlyJoins;
    var code, count := b.HandlePublish(publisher, packet);
    assert RetainedOf(b.nodes, []) == [];
    assert [t][..0] == [];
    code := b.Subscribe(c, [t]);
  }

  // When one session has unsubscribed from a topic, the next publish on it
  // reaches every other subscriber, and not that session.
  method UnsubscribeThenPublish(b: Broker, c: Session, name: Name, publisher: Session, packet: seq<Byte>)
    requires b.Valid() && publisher in b.contexts && c in b.contexts && b.contexts[publisher].connected && b.contexts[c].connected
    requires var d := DecodePublish(packet); d.Some? && d.value.topic == name
    modifies b
    ensures b.Valid() && b.contexts.Keys == old(b.contexts).Keys && b.contexts[c].queue == old(b.contexts)[c].queue
    ensures forall d :: d in b.contexts && d != c && Subscribes(old(b.nodes), name, d) ==>
      exists m: Message :: b.contexts[d].queue == old(b.contexts)[d].queue + [m]
        && DecodePublish(m.bytes) == Some(DecodePublish(packet).value.(id := b.lastId % 65536))
  {
    hide DecodePublish, Renumber, Broker.Valid, Grown, OnlyRetains;
    assert name in [name];
    var code := b.Unsubscribe(c, [name]);
    var count;
    code, count := b.HandlePublish(publisher, packet);
    assert b.contexts[c].queue == old(b.contexts)[c].queue + [];
  }
}
