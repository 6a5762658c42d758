/** Clients that remember an idempotency key per command text until the command succeeds: the
    project page's request sender and the expense page. Composed with a network that loses and
    delays, and a server that carries out each key at most once. */
module AttemptKeys {
  import opened Delivery

  /** What identifies a command for a retry. A kept command holds its key for good (a claim version
      is submitted once); any other forgets it on success, so the next one is a new intent. */
  datatype Command = Command(text: string, kept: bool)

  /** `awaiting` are the sends whose continuation has not run; `reported` the successes told to the
      user, each with the key it was told for; `owner` records which command a key was made for. */
  datatype Client = Client(
    attempts: map<Command, Key>,
    awaiting: map<nat, Command>,
    nextKey: Key,
    net: Net,
    reported: seq<Key>,
    owner: map<Key, Command>)

  const FRESH := Client(map[], map[], 0, QUIET, [], map[])

  function KeyFor(c: Client, cmd: Command): Key {
    if cmd in c.attempts then c.attempts[cmd] else c.nextKey
  }

  function Begin(c: Client, cmd: Command): Client {
    var key := KeyFor(c, cmd);
    Client(c.attempts[cmd := key], c.awaiting[|c.net.requests| := cmd], c.nextKey + 1,
           Send(c.net, key), c.reported, c.owner[key := cmd])
  }

  function Succeed(c: Client, ticket: nat): Client
    requires ticket in c.awaiting && Answered(c.net, ticket, Done)
  {
    var cmd := c.awaiting[ticket];
    c.(attempts := if cmd.kept then c.attempts else c.attempts - {cmd},
       awaiting := c.awaiting - {ticket},
       reported := c.reported + [c.net.requests[ticket].key])
  }

  /** The send throws, for whatever reason: the key stays. */
  function Fail(c: Client, ticket: nat): Client {
    c.(awaiting := c.awaiting - {ticket})
  }

  /** The page is mounted anew: its refs start empty, and no continuation of the old mount does anything. */
  function Forget(c: Client): Client {
    c.(attempts := map[], awaiting := map[])
  }

  // ---- Invariant ----

  /** A send whose request can still be reported as a success. */
  predicate MaySucceed(c: Client, ticket: nat) {
    ticket in c.awaiting && (Pending(c.net, ticket) || Answered(c.net, ticket, Done))
  }

  ghost predicate Overlaps(c: Client, cmd: Command) {
    exists t: nat :: MaySucceed(c, t) && c.awaiting[t] == cmd
  }

  /** At most one send of a command can still succeed, and it carries the key the command remembers. */
  ghost predicate InStep(c: Client) {
    && (forall t | t in c.awaiting :: t < |c.net.requests|)
    && (forall t: nat | MaySucceed(c, t) :: c.awaiting[t] in c.attempts && c.attempts[c.awaiting[t]] == c.net.requests[t].key)
    && (forall t: nat, u: nat | MaySucceed(c, t) && MaySucceed(c, u) && t != u :: c.awaiting[t] != c.awaiting[u])
  }

  ghost predicate Owned(c: Client) {
    && (forall k :: k in c.owner <==> Used(c.net, k))
    && (forall k | k in c.owner :: k < c.nextKey)
    && (forall k | k in c.reported :: k in c.owner)
    && (forall cmd | cmd in c.attempts :: c.attempts[cmd] in c.owner && c.owner[c.attempts[cmd]] == cmd)
  }

  ghost predicate Open(c: Client, k: Key) {
    k in c.owner && c.owner[k] in c.attempts && c.attempts[c.owner[k]] == k
  }

  /** A key is given up only by reporting success for it, and then it has taken effect. */
  ghost predicate KeyAccounted(c: Client, k: Key)
    requires k in c.owner
  {
    && (k !in c.reported ==> Open(c, k))
    && (k in c.reported ==> k in c.net.applied && (Open(c, k) <==> c.owner[k].kept))
  }

  /** Of one command: each of its keys is accounted for, and none is reported twice unless it is kept. */
  ghost predicate Accounted(c: Client, cmd: Command) {
    && (forall k | k in c.owner && c.owner[k] == cmd :: KeyAccounted(c, k))
    && (forall i, j | 0 <= i < j < |c.reported| && c.reported[i] == c.reported[j]
                      && c.reported[i] in c.owner && c.owner[c.reported[i]] == cmd :: cmd.kept)
  }

  ghost predicate Inv(c: Client, cmd: Command) {
    Sound(c.net) && Owned(c) && Accounted(c, cmd) && InStep(c)
  }

  lemma BeginKeepsOwned(c: Client, x: Command)
    requires Sound(c.net) && Owned(c)
    ensures Sound(Begin(c, x).net) && Owned(Begin(c, x))
    ensures KeyFor(c, x) in c.owner ==> Open(c, KeyFor(c, x)) && c.owner[KeyFor(c, x)] == x
  {
    SendIsSound(c.net, KeyFor(c, x));
  }

  lemma BeginKeepsAccounted(c: Client, x: Command, cmd: Command)
    requires Owned(c) && Accounted(c, cmd)
    ensures Accounted(Begin(c, x), cmd)
  {
    var c', key := Begin(c, x), KeyFor(c, x);
    forall k | k in c'.owner && c'.owner[k] == cmd ensures KeyAccounted(c', k) {
      if k in c.owner {
        assert KeyAccounted(c, k);
        assert Open(c', k) <==> Open(c, k);
      }
    }
  }

  lemma BeginKeepsInStep(c: Client, cmd: Command)
    requires InStep(c) && !Overlaps(c, cmd)
    ensures InStep(Begin(c, cmd))
  {
    var c', ticket := Begin(c, cmd), |c.net.requests|;
    forall t: nat | MaySucceed(c', t) && t != ticket ensures MaySucceed(c, t) && c.awaiting[t] != cmd {
    }
  }

  lemma BeginKeepsInv(c: Client, x: Command, cmd: Command)
    requires Inv(c, cmd) && !Overlaps(c, x)
    ensures Inv(Begin(c, x), cmd)
  {
    BeginKeepsOwned(c, x);
    BeginKeepsAccounted(c, x, cmd);
    BeginKeepsInStep(c, x);
  }

  lemma SucceedKeepsAccounted(c: Client, ticket: nat, cmd: Command)
    requires Owned(c) && Accounted(c, cmd) && InStep(c)
    requires ticket in c.awaiting && Answered(c.net, ticket, Done) && c.net.requests[ticket].key in c.net.applied
    ensures Accounted(Succeed(c, ticket), cmd)
  {
    var c', key := Succeed(c, ticket), c.net.requests[ticket].key;
    assert MaySucceed(c, ticket);
    assert Open(c, key) && c.owner[key] == c.awaiting[ticket];
    assert c.owner[key] == cmd ==> KeyAccounted(c, key);
    forall k | k in c'.owner && c'.owner[k] == cmd ensures KeyAccounted(c', k) {
      assert KeyAccounted(c, k);
      if k != key {
        assert Open(c', k) <==> Open(c, k);
      }
    }
  }

  lemma SucceedKeepsInStep(c: Client, ticket: nat)
    requires InStep(c) && ticket in c.awaiting && Answered(c.net, ticket, Done)
    ensures InStep(Succeed(c, ticket))
  {
    var c' := Succeed(c, ticket);
    forall t: nat | MaySucceed(c', t) ensures MaySucceed(c, t) && t != ticket && c.awaiting[t] != c.awaiting[ticket] {
      assert MaySucceed(c, ticket);
    }
  }

  /** What cannot succeed any more never can again. */
  lemma LaterKeepsInStep(c: Client, c': Client)
    requires InStep(c) && c'.attempts == c.attempts && |c'.net.requests| == |c.net.requests|
    requires forall t | t in c'.awaiting :: t in c.awaiting && c'.awaiting[t] == c.awaiting[t]
    requires forall t | 0 <= t < |c.net.requests| ::
      c'.net.requests[t].key == c.net.requests[t].key && (c.net.requests[t].phase != OnTheWay ==> c'.net.requests[t] == c.net.requests[t])
    ensures InStep(c')
  {
    forall t: nat | MaySucceed(c', t) ensures MaySucceed(c, t) {
    }
  }

  lemma SucceedKeepsOwned(c: Client, ticket: nat)
    requires Owned(c) && InStep(c) && ticket in c.awaiting && Answered(c.net, ticket, Done)
    ensures Owned(Succeed(c, ticket))
  {
    assert MaySucceed(c, ticket);
  }

  lemma SucceedKeepsInv(c: Client, ticket: nat, cmd: Command)
    requires Inv(c, cmd) && ticket in c.awaiting && Answered(c.net, ticket, Done)
    ensures Inv(Succeed(c, ticket), cmd)
  {
    SucceedKeepsAccounted(c, ticket, cmd);
    SucceedKeepsInStep(c, ticket);
    SucceedKeepsOwned(c, ticket);
  }

  /** What happens to the network, or to a send that fails, changes nothing about keys. */
  lemma SameKeysKeepInv(c: Client, c': Client, cmd: Command)
    requires Owned(c) && Accounted(c, cmd)
    requires c'.attempts == c.attempts && c'.owner == c.owner && c'.nextKey == c.nextKey && c'.reported == c.reported
    requires forall k | k in c.net.applied :: k in c'.net.applied
    requires forall k :: Used(c.net, k) <==> Used(c'.net, k)
    ensures Owned(c') && Accounted(c', cmd)
  {
    forall k | k in c'.owner && c'.owner[k] == cmd ensures KeyAccounted(c', k) {
      assert KeyAccounted(c, k);
    }
  }

  lemma FailKeepsInv(c: Client, ticket: nat, cmd: Command)
    requires Inv(c, cmd)
    ensures Inv(Fail(c, ticket), cmd)
  {
    SameKeysKeepInv(c, Fail(c, ticket), cmd);
    LaterKeepsInStep(c, Fail(c, ticket));
  }

  lemma NetworkKeepsInv(c: Client, e: Delivery.Event, cmd: Command)
    requires Inv(c, cmd)
    ensures Inv(c.(net := Delivery.Step(c.net, e)), cmd)
  {
    hide Sound;
    StepIsSound(c.net, e);
    SameKeysKeepInv(c, c.(net := Delivery.Step(c.net, e)), cmd);
    LaterKeepsInStep(c, c.(net := Delivery.Step(c.net, e)));
  }

  /** A new mount knows neither the keys of the old one nor its sends; with no key of the command given up
      this way, the account of the command stays right. */
  lemma ForgetKeepsInv(c: Client, cmd: Command)
    requires Inv(c, cmd) && cmd !in c.attempts
    ensures Inv(Forget(c), cmd)
  {
    forall k | k in c.owner && c.owner[k] == cmd ensures KeyAccounted(Forget(c), k) {
      assert KeyAccounted(c, k);
    }
  }

  // ---- What the invariant says about effects ----

  ghost function Effects(c: Client, cmd: Command): set<Key> {
    set k | k in c.net.applied && k in c.owner && c.owner[k] == cmd
  }

  /** The effect of the attempt that is still open, if the server has carried it out. */
  ghost function OpenEffect(c: Client, cmd: Command): set<Key> {
    if cmd in c.attempts && c.attempts[cmd] in c.net.applied then {c.attempts[cmd]} else {}
  }

  ghost function Successes(reported: seq<Key>, owner: map<Key, Command>, cmd: Command): nat {
    if reported == [] then 0
    else Successes(reported[..|reported| - 1], owner, cmd)
         + if reported[|reported| - 1] in owner && owner[reported[|reported| - 1]] == cmd then 1 else 0
  }

  ghost function Told(reported: seq<Key>, owner: map<Key, Command>, cmd: Command): set<Key> {
    set k | k in reported && k in owner && owner[k] == cmd
  }

  lemma {:induction false} CountSuccesses(reported: seq<Key>, owner: map<Key, Command>, cmd: Command)
    requires forall i, j | 0 <= i < j < |reported| && reported[i] == reported[j] && reported[i] in owner :: owner[reported[i]] != cmd
    ensures |Told(reported, owner, cmd)| == Successes(reported, owner, cmd)
  {
    if reported != [] {
      var init, last := reported[..|reported| - 1], reported[|reported| - 1];
      assert forall i | 0 <= i < |init| :: init[i] == reported[i];
      CountSuccesses(init, owner, cmd);
      if last in owner && owner[last] == cmd {
        assert last !in init;
        assert Told(reported, owner, cmd) == Told(init, owner, cmd) + {last};
      } else {
        assert Told(reported, owner, cmd) == Told(init, owner, cmd);
      }
    } else {
      assert Told(reported, owner, cmd) == {};
    }
  }

  lemma EffectsAreToldOrOpen(c: Client, cmd: Command)
    requires Inv(c, cmd) && !cmd.kept
    ensures Effects(c, cmd) == Told(c.reported, c.owner, cmd) + OpenEffect(c, cmd)
    ensures Told(c.reported, c.owner, cmd) !! OpenEffect(c, cmd)
  {
    var told := Told(c.reported, c.owner, cmd);
    assert told !! OpenEffect(c, cmd) by {
      if cmd in c.attempts && c.attempts[cmd] in told { assert KeyAccounted(c, c.attempts[cmd]); }
    }
    forall k | k in Effects(c, cmd) ensures k in told + OpenEffect(c, cmd) { assert KeyAccounted(c, k); }
  }

  ghost predicate CountHolds(c: Client, cmd: Command) {
    |Effects(c, cmd)| == Successes(c.reported, c.owner, cmd) + |OpenEffect(c, cmd)|
  }

  /** Exactly once: a command has taken effect as often as success was reported for it, plus at most
      once for the attempt still open. So over any number of retries of an intent it takes effect at
      most once, and exactly once when success is reported. */
  lemma EffectsMatchReports(c: Client, cmd: Command)
    requires Inv(c, cmd) && !cmd.kept
    ensures CountHolds(c, cmd) && |OpenEffect(c, cmd)| <= 1
  {
    CountSuccesses(c.reported, c.owner, cmd);
    EffectsAreToldOrOpen(c, cmd);
    hide Effects, Told, Inv, Successes;
    assert |Told(c.reported, c.owner, cmd) + OpenEffect(c, cmd)| == |Told(c.reported, c.owner, cmd)| + |OpenEffect(c, cmd)|;
  }

  /** A command whose key is kept takes effect at most once, ever, and has done so once success is reported. */
  lemma KeptCommandOnce(c: Client, cmd: Command)
    requires Inv(c, cmd) && cmd.kept
    ensures |Effects(c, cmd)| <= 1
    ensures Successes(c.reported, c.owner, cmd) > 0 ==> |Effects(c, cmd)| == 1
  {
    assert Effects(c, cmd) == OpenEffect(c, cmd) by {
      forall k | k in Effects(c, cmd) ensures k in OpenEffect(c, cmd) { assert KeyAccounted(c, k); }
    }
    SuccessHasKey(c.reported, c.owner, cmd);
  }

  lemma {:induction false} SuccessHasKey(reported: seq<Key>, owner: map<Key, Command>, cmd: Command)
    ensures Successes(reported, owner, cmd) > 0 ==> exists k :: k in reported && k in owner && owner[k] == cmd
  {
    if reported != [] {
      SuccessHasKey(reported[..|reported| - 1], owner, cmd);
    }
  }
}
