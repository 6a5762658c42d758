/** What the clients of this project share: a network that delays and loses requests and answers,
    and a server that carries out each idempotency key at most once. The server is modelled only by
    that promise. Requests are numbered by tickets, in the order they were sent. */
module Delivery {

  /** Keys end in a random UUID, so a new one never equals an old one: they are numbers in order of creation. */
  type Key = nat

  datatype Phase = OnTheWay | Lost | Done | Refused
  datatype Request = Request(key: Key, phase: Phase)

  /** `applied` lists the keys that took effect, in order. */
  datatype Net = Net(requests: seq<Request>, applied: seq<Key>)

  const QUIET := Net([], [])

  function Send(n: Net, key: Key): Net {
    n.(requests := n.requests + [Request(key, OnTheWay)])
  }

  predicate Pending(n: Net, ticket: nat) {
    ticket < |n.requests| && n.requests[ticket].phase == OnTheWay
  }

  predicate Answered(n: Net, ticket: nat, phase: Phase) {
    ticket < |n.requests| && n.requests[ticket].phase == phase
  }

  /** The server takes up a request, in any order, or the request or its answer is lost. A key the
      server knows is answered again without a second effect; an unknown key either takes effect or
      is refused, and a refusal leaves no trace. A lost answer is the client giving up on it. */
  datatype Event = Serve(ticket: nat, accept: bool) | Lose(ticket: nat)

  function Step(n: Net, e: Event): Net {
    if !Pending(n, e.ticket) then n
    else
      var key := n.requests[e.ticket].key;
      if e.Lose? then n.(requests := n.requests[e.ticket := Request(key, Lost)])
      else if key in n.applied then n.(requests := n.requests[e.ticket := Request(key, Done)])
      else if e.accept then Net(n.requests[e.ticket := Request(key, Done)], n.applied + [key])
      else n.(requests := n.requests[e.ticket := Request(key, Refused)])
  }

  // ---- What holds of every network ----

  ghost predicate Used(n: Net, key: Key) {
    exists t :: 0 <= t < |n.requests| && n.requests[t].key == key
  }

  ghost predicate ServedAsDone(n: Net, key: Key) {
    exists t :: 0 <= t < |n.requests| && n.requests[t] == Request(key, Done)
  }

  /** No key takes effect twice, every effect came from a request that was served as done, and an
      answer that says done speaks the truth. */
  ghost predicate Sound(n: Net) {
    && (forall i, j | 0 <= i < j < |n.applied| :: n.applied[i] != n.applied[j])
    && (forall k | k in n.applied :: ServedAsDone(n, k))
    && (forall t | 0 <= t < |n.requests| && n.requests[t].phase == Done :: n.requests[t].key in n.applied)
  }

  /** The key has not taken effect and no request that carries it can still arrive. */
  ghost predicate Dead(n: Net, key: Key) {
    key !in n.applied && forall t | 0 <= t < |n.requests| && n.requests[t].key == key :: n.requests[t].phase != OnTheWay
  }

  /** What a step of the network may change, as far as a client is concerned. */
  ghost predicate Later(n: Net, n': Net) {
    && |n'.requests| == |n.requests|
    && (forall t | 0 <= t < |n.requests| ::
          n'.requests[t].key == n.requests[t].key && (n.requests[t].phase != OnTheWay ==> n'.requests[t] == n.requests[t]))
    && (forall k | k in n.applied :: k in n'.applied)
    && (forall k | k in n'.applied && k !in n.applied :: Used(n, k))
    && (forall k | Dead(n, k) :: Dead(n', k))
  }

  lemma SendIsSound(n: Net, key: Key)
    requires Sound(n)
    ensures Sound(Send(n, key))
    ensures forall k :: Used(Send(n, key), k) <==> Used(n, k) || k == key
    ensures forall k | k != key && Dead(n, k) :: Dead(Send(n, key), k)
  {
    var n' := Send(n, key);
    assert n'.requests[|n.requests|].key == key;
    forall k | Used(n, k) ensures Used(n', k) {
      var t :| 0 <= t < |n.requests| && n.requests[t].key == k;
      assert n'.requests[t].key == k;
    }
    forall k | k in n.applied ensures ServedAsDone(n', k) {
      var t :| 0 <= t < |n.requests| && n.requests[t] == Request(k, Done);
      assert n'.requests[t] == Request(k, Done);
    }
  }

  lemma AppliedIsUsed(n: Net)
    requires Sound(n)
    ensures forall k | k in n.applied :: Used(n, k)
  {
    forall k | k in n.applied ensures Used(n, k) {
      var t :| 0 <= t < |n.requests| && n.requests[t] == Request(k, Done);
    }
  }

  lemma SameUse(n: Net, n': Net)
    requires |n'.requests| == |n.requests| && forall t | 0 <= t < |n.requests| :: n'.requests[t].key == n.requests[t].key
    ensures forall k :: Used(n, k) <==> Used(n', k)
  {
    forall k ensures Used(n, k) <==> Used(n', k) {
      if t :| 0 <= t < |n.requests| && n.requests[t].key == k { assert n'.requests[t].key == k; }
      if t :| 0 <= t < |n'.requests| && n'.requests[t].key == k { assert n.requests[t].key == k; }
    }
  }

  lemma StepIsSound(n: Net, e: Event)
    requires Sound(n)
    ensures Sound(Step(n, e)) && Later(n, Step(n, e))
    ensures forall k :: Used(n, k) <==> Used(Step(n, e), k)
  {
    var n' := Step(n, e);
    SameUse(n, n');
    if Pending(n, e.ticket) {
      assert Used(n, n.requests[e.ticket].key);
      forall k | k in n'.applied ensures ServedAsDone(n', k) {
        if k in n.applied {
          var t :| 0 <= t < |n.requests| && n.requests[t] == Request(k, Done);
          assert n'.requests[t] == Request(k, Done);
        } else {
          assert n'.requests[e.ticket] == Request(k, Done);
        }
      }
      forall k | Dead(n, k) ensures Dead(n', k) {
        assert n.requests[e.ticket].key != k;
      }
    }
  }
}
