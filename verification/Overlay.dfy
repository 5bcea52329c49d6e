/** Wrapping a payload for a chain of relays, and routing it through an in-memory registry. */
module Overlay {
  import opened Bytes
  import opened Options
  import opened Keys
  import opened Onion
  import opened Postcard

  datatype Hop = Hop(name: Text, point: Point, ephemeral: Point)

  // ---------------------------------------------------------------- wrapping

  function NextName(chain: seq<Hop>): Option<Text> {
    if |chain| > 1 then Some(chain[1].name) else None
  }

  /** The nested layers for a chain; no layer for an empty one. */
  function Wrapped(aead: Aead, chain: seq<Hop>, payload: seq<Byte>): seq<Byte> {
    if chain == [] then payload
    else Seal(aead, chain[0].point, chain[0].ephemeral, Inner(NextName(chain), Wrapped(aead, chain[1..], payload)))
  }

  /** Builds the layers from the innermost outward; an empty chain is refused. */
  method WrapLayers(aead: Aead, chain: seq<Hop>, payload: seq<Byte>) returns (r: Option<seq<Byte>>)
    ensures r == if chain == [] then None else Some(Wrapped(aead, chain, payload))
  {
    if chain == [] {
      return None;
    }
    hide Seal;
    var current := payload;
    var nextHop: Option<Text> := None;
    var i := |chain|;
    while i > 0
      invariant 0 <= i <= |chain|
      invariant current == Wrapped(aead, chain[i..], payload)
      invariant nextHop == if i < |chain| then Some(chain[i].name) else None
    {
      i := i - 1;
      assert chain[i..][1..] == chain[i + 1..];
      current := Seal(aead, chain[i].point, chain[i].ephemeral, Inner(nextHop, current));
      nextHop := Some(chain[i].name);
    }
    assert chain[0..] == chain;
    return Some(current);
  }

  // ---------------------------------------------------------------- routing

  datatype Outcome = Delivered(payload: seq<Byte>) | UnknownRelay(name: Text) | Refused(error: PeelError)

  /** Where bytes handed to a relay end up, and the relays that peeled a layer on the way. */
  ghost function Routed(aead: Aead, secrets: map<Text, Point>, at: Text, b: seq<Byte>): (r: (Outcome, seq<Text>))
    requires Sound(aead)
    ensures (POINT_LEN + TAG_LEN + 3) * |r.1| <= |b|
    decreases |b|
  {
    if at !in secrets then (UnknownRelay(at), [])
    else
      match Peel(aead, secrets[at], b)
      case Err(e) => (Refused(e), [])
      case Ok(x) =>
        PeelShrinks(aead, secrets[at], b);
        match x.nextHop
        case None => (Delivered(x.inner), [at])
        case Some(next) =>
          var rest := Routed(aead, secrets, next, x.inner);
          (rest.0, [at] + rest.1)
  }

  class InMemoryRelay {
    const aead: Aead
    const secrets: map<Text, Point>
    var delivered: seq<seq<Byte>>

    constructor (aead: Aead, secrets: map<Text, Point>)
      ensures this.aead == aead && this.secrets == secrets && delivered == []
    {
      this.aead, this.secrets, delivered := aead, secrets, [];
    }

    /** Follows the next-hop names until a payload comes out, a name is unknown or a peel fails; whatever the bytes. */
    method Route(entry: Text, layerBytes: seq<Byte>) returns (outcome: Outcome)
      requires Sound(aead)
      modifies this
      ensures outcome == Routed(aead, secrets, entry, layerBytes).0
      ensures delivered == old(delivered) + if outcome.Delivered? then [outcome.payload] else []
    {
      hide Peel, Sound;
      var currentRelay, currentBytes := entry, layerBytes;
      while true
        invariant delivered == old(delivered)
        invariant Routed(aead, secrets, currentRelay, currentBytes).0 == Routed(aead, secrets, entry, layerBytes).0
        decreases |currentBytes|
      {
        if currentRelay !in secrets {
          return UnknownRelay(currentRelay);
        }
        var peeled := Peel(aead, secrets[currentRelay], currentBytes);
        if peeled.Err? {
          return Refused(peeled.error);
        }
        PeelShrinks(aead, secrets[currentRelay], currentBytes);
        match peeled.value.nextHop
        case None =>
          delivered := delivered + [peeled.value.inner];
          return Delivered(peeled.value.inner);
        case Some(next) =>
          currentRelay, currentBytes := next, peeled.value.inner;
      }
    }

    method TakeDelivered() returns (out: seq<seq<Byte>>)
      modifies this
      ensures out == old(delivered) && delivered == []
    {
      out := delivered;
      delivered := [];
    }
  }

  // ---------------------------------------------------------------- what arrives

  predicate WellNamed(chain: seq<Hop>) {
    forall i :: 0 <= i < |chain| ==> |chain[i].ephemeral| == POINT_LEN && Short(chain[i].name) && Utf8(chain[i].name)
  }

  /** Lengths that fit the encoding. */
  predicate Fits(aead: Aead, chain: seq<Hop>, payload: seq<Byte>) {
    Short(Wrapped(aead, chain, payload)) && (chain != [] ==> Fits(aead, chain[1..], payload))
  }

  /** The registry holds each relay of the chain under its name. */
  predicate Registered(secrets: map<Text, Point>, chain: seq<Hop>) {
    forall i :: 0 <= i < |chain| ==> Holds(secrets, chain[i])
  }

  predicate Holds(secrets: map<Text, Point>, hop: Hop) {
    hop.name in secrets && secrets[hop.name] == hop.point
  }

  /** No layer opens under whatever the registry holds for its name, unless that is the right relay. */
  ghost predicate NotForged(aead: Aead, secrets: map<Text, Point>, chain: seq<Hop>, payload: seq<Byte>) {
    chain != [] ==>
      && NotForged(aead, secrets, chain[1..], payload)
      && (chain[0].name in secrets ==>
            Authentic(aead, KeyFor(chain[0].point, chain[0].ephemeral), chain[0].ephemeral,
                      EncodeInner(Inner(NextName(chain), Wrapped(aead, chain[1..], payload))),
                      KeyFor(secrets[chain[0].name], chain[0].ephemeral)))
  }

  function Names(chain: seq<Hop>): seq<Text> {
    seq(|chain|, i requires 0 <= i < |chain| => chain[i].name)
  }

  lemma {:induction false} NamesCons(chain: seq<Hop>)
    requires chain != []
    ensures Names(chain) == [chain[0].name] + Names(chain[1..])
  {
  }

  /** What the first relay of a chain peels off. */
  lemma FirstPeel(aead: Aead, secrets: map<Text, Point>, chain: seq<Hop>, payload: seq<Byte>)
    requires Sound(aead) && chain != [] && WellNamed(chain) && Fits(aead, chain, payload)
    requires NotForged(aead, secrets, chain, payload) && chain[0].name in secrets
    ensures Peel(aead, secrets[chain[0].name], Wrapped(aead, chain, payload))
            == if Holds(secrets, chain[0]) then Ok(Inner(NextName(chain), Wrapped(aead, chain[1..], payload)))
               else Err(BadSeal)
  {
    hide Sound, Peel, Seal, Short, Utf8, EncodeInner, KeyFor;
    assert |chain| > 1 ==> Short(chain[1].name) && Utf8(chain[1].name);
    PeelIff(aead, chain[0].point, chain[0].ephemeral, Inner(NextName(chain), Wrapped(aead, chain[1..], payload)),
            secrets[chain[0].name]);
  }

  /** For every chain of at least one relay: routed from its first relay, the payload is delivered exactly when every
      relay is registered under its name, and then the relays peel one layer each, in the order of the chain. */
  lemma {:induction false} RouteDeliversIff(aead: Aead, secrets: map<Text, Point>, chain: seq<Hop>, payload: seq<Byte>)
    requires Sound(aead) && chain != [] && WellNamed(chain) && Fits(aead, chain, payload)
    requires NotForged(aead, secrets, chain, payload)
    ensures var r := Routed(aead, secrets, chain[0].name, Wrapped(aead, chain, payload));
            && (r.0 == Delivered(payload) <==> Registered(secrets, chain))
            && (r.0.Delivered? ==> r == (Delivered(payload), Names(chain)))
    decreases |chain|
  {
    hide Peel, Sound, Wrapped, Short, Utf8, Authentic;
    var name := chain[0].name;
    NamesCons(chain);
    if name in secrets {
      FirstPeel(aead, secrets, chain, payload);
      if Holds(secrets, chain[0]) {
        RegisteredSplits(secrets, chain);
        if |chain| > 1 {
          RouteDeliversIff(aead, secrets, chain[1..], payload);
        } else {
          EmptyWrap(aead, chain[1..], payload);
          assert Names(chain) == [name];
        }
      }
    }
  }

  /** And otherwise it stops at the first relay of the chain that the registry does not hold: unknown if the name is
      missing, refused if it is somebody else's; the relays before it peeled one layer each. */
  lemma {:induction false} RouteStopsAt(aead: Aead, secrets: map<Text, Point>, chain: seq<Hop>, payload: seq<Byte>, i: nat)
    requires Sound(aead) && i < |chain| && WellNamed(chain) && Fits(aead, chain, payload)
    requires NotForged(aead, secrets, chain, payload)
    requires !Holds(secrets, chain[i]) && forall k :: 0 <= k < i ==> Holds(secrets, chain[k])
    ensures var r := Routed(aead, secrets, chain[0].name, Wrapped(aead, chain, payload)); var name := chain[i].name;
            r == (if name in secrets then Refused(BadSeal) else UnknownRelay(name), Names(chain[..i]))
    decreases |chain|
  {
    hide Peel, Sound, Wrapped, Short, Utf8, Authentic;
    assert Names(chain[..0]) == [];
    assert i > 0 ==> Holds(secrets, chain[0]);
    if chain[0].name in secrets {
      FirstPeel(aead, secrets, chain, payload);
      if i > 0 {
        assert Holds(secrets, chain[0]) && chain[1..][i - 1] == chain[i];
        forall k | 0 <= k < i - 1 ensures Holds(secrets, chain[1..][k]) {
          assert chain[1..][k] == chain[k + 1];
        }
        RouteStopsAt(aead, secrets, chain[1..], payload, i - 1);
        NamesCons(chain[..i]);
        assert chain[..i][1..] == chain[1..][..i - 1];
      }
    }
  }

  lemma EmptyWrap(aead: Aead, chain: seq<Hop>, payload: seq<Byte>)
    requires chain == []
    ensures Wrapped(aead, chain, payload) == payload && Names(chain) == []
  {
  }

  lemma RegisteredSplits(secrets: map<Text, Point>, chain: seq<Hop>)
    requires chain != []
    ensures Registered(secrets, chain) <==> Holds(secrets, chain[0]) && Registered(secrets, chain[1..])
  {
    if Registered(secrets, chain) {
      forall i | 0 <= i < |chain| - 1 ensures Holds(secrets, chain[1..][i]) {
        assert chain[1..][i] == chain[i + 1];
      }
    } else if Holds(secrets, chain[0]) {
      var i :| 0 <= i < |chain| && !Holds(secrets, chain[i]);
      assert chain[1..][i - 1] == chain[i];
    }
  }
}
