/** What a page that keeps keys per command can know: everything but what became of its requests. A run
    can be held back: a second one that looks the same, in which no request of one key ever arrives. */
module KeyViews {
  import opened Delivery
  import opened AttemptKeys

  /** The client as its page sees it. */
  function Blind(c: Client): Client {
    c.(net := Net(seq(|c.net.requests|, t requires 0 <= t < |c.net.requests| => Request(c.net.requests[t].key, OnTheWay)), []))
  }

  lemma BlindIsAllButTheNet(c: Client, d: Client)
    ensures Blind(c) == Blind(d) <==>
      && d.(net := c.net) == c && |d.net.requests| == |c.net.requests|
      && forall t | 0 <= t < |c.net.requests| :: d.net.requests[t].key == c.net.requests[t].key
  {
    var a, b := Blind(c).net.requests, Blind(d).net.requests;
    if a == b {
      forall t | 0 <= t < |c.net.requests| ensures d.net.requests[t].key == c.net.requests[t].key {
        assert a[t] == b[t];
      }
    }
    if Blind(c) == Blind(d) {
      assert Blind(c).(net := c.net) == c && Blind(d).(net := c.net) == d.(net := c.net);
    } else if d.(net := c.net) == c {
      assert Blind(d) == d.(net := Blind(d).net) && Blind(c) == c.(net := Blind(c).net);
    }
  }

  lemma NetworkIsUnseen(c: Client, e: Delivery.Event)
    ensures Blind(c.(net := Delivery.Step(c.net, e))) == Blind(c)
  {
    BlindIsAllButTheNet(c.(net := Delivery.Step(c.net, e)), c);
  }

  /** `d` is `c` with every request of `key` still on the way, and without an effect of it. */
  ghost predicate Held(c: Client, d: Client, key: Key) {
    && d.(net := c.net) == c && |d.net.requests| == |c.net.requests| && key !in d.net.applied
    && (forall k | k != key :: k in c.net.applied <==> k in d.net.applied)
    && forall t | 0 <= t < |c.net.requests| ::
         if c.net.requests[t].key == key then d.net.requests[t] == Request(key, OnTheWay)
         else d.net.requests[t] == c.net.requests[t]
  }

  lemma HeldLooksTheSame(c: Client, d: Client, key: Key)
    requires Held(c, d, key)
    ensures Blind(c) == Blind(d)
  {
    BlindIsAllButTheNet(c, d);
  }

  lemma HeldThroughBegin(c: Client, d: Client, key: Key, cmd: Command)
    requires Held(c, d, key)
    ensures Held(Begin(c, cmd), Begin(d, cmd), key)
  {
  }

  lemma HeldThroughFail(c: Client, d: Client, key: Key, ticket: nat)
    requires Held(c, d, key)
    ensures Held(Fail(c, ticket), Fail(d, ticket), key)
  {
  }

  lemma HeldThroughSucceed(c: Client, d: Client, key: Key, ticket: nat)
    requires Held(c, d, key) && ticket in c.awaiting && Answered(c.net, ticket, Done) && c.net.requests[ticket].key != key
    ensures ticket in d.awaiting && Answered(d.net, ticket, Done)
    ensures Held(Succeed(c, ticket), Succeed(d, ticket), key)
  {
  }

  /** An event of the network that would move a request of `key`. */
  predicate Silent(c: Client, e: Delivery.Event, key: Key) {
    e.ticket < |c.net.requests| && c.net.requests[e.ticket].key == key
  }

  lemma HeldThroughNetwork(c: Client, d: Client, key: Key, e: Delivery.Event)
    requires Held(c, d, key)
    ensures var c' := c.(net := Delivery.Step(c.net, e));
      Held(c', if Silent(c, e, key) then d else d.(net := Delivery.Step(d.net, e)), key)
  {
  }

  /** In a held run the key can still take effect, and nobody is told. */
  lemma HeldKeyTakesEffect(d: Client, ticket: nat)
    requires Pending(d.net, ticket) && d.net.requests[ticket].key !in d.net.applied
    ensures d.net.requests[ticket].key in Delivery.Step(d.net, Serve(ticket, true)).applied
  {
  }
}
