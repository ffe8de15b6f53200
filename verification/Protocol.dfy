/** What the core contract is for, without storage accounts or byte offsets: a set of seen
    messages, a counter per publisher, and a line of guardian sets of which the last rules. */
module Protocol {
  import opened Teal
  import opened Transactions
  import opened VerifyVaa
  import opened Replay

  const GRACE: nat := 86400

  /** `expiry` 0 means the set has not been retired. */
  datatype GuardianSet = GuardianSet(keys: bytes, expiry: uint64)

  datatype Protocol = Protocol(seen: set<Message>, counters: map<bytes, uint64>, first: nat, sets: seq<GuardianSet>) {
    function Count(sender: bytes): uint64 {
      if sender in counters then counters[sender] else 0
    }

    predicate Booted() { sets != [] }

    function Current(): nat
      requires Booted()
    {
      first + |sets| - 1
    }
  }

  const START: Protocol := Protocol({}, map[], 0, [])

  datatype Event =
    | Accepted(msg: Message)
    | Published(sender: bytes, sequence: uint64)
    | Booted(index: nat, keys: bytes)
    | Upgraded(vaa: bytes, keys: bytes, time: uint64)
    | Verified(vaa: bytes, index: nat, time: uint64)

  /** A set never holds more keys than fit below its expiry field. */
  predicate ProperKeys(keys: bytes) {
    |keys| % 20 == 0 && 1 <= |keys| / 20 <= 49
  }

  /** The effect of an event; `None` when the protocol does not allow it. */
  ghost function Apply(crypto: Crypto, p: Protocol, ev: Event): Option<Protocol> {
    match ev
    case Accepted(msg) =>
      :- Require(msg !in p.seen);
      Some(p.(seen := p.seen + {msg}))
    case Published(sender, sequence) =>
      :- Require(sequence == p.Count(sender) + 1);
      Some(p.(counters := p.counters[sender := sequence]))
    case Booted(index, keys) =>
      :- Require(!p.Booted() && ProperKeys(keys));
      Some(p.(first := index, sets := [GuardianSet(keys, 0)]))
    case Upgraded(vaa, keys, time) =>
      :- Require(p.Booted() && ProperKeys(keys) && time + GRACE < U64);
      var n := |p.sets| - 1;
      :- Require(QuorumSigned(crypto, p.sets[n].keys, vaa));
      Some(p.(sets := p.sets[..n] + [GuardianSet(p.sets[n].keys, time + GRACE), GuardianSet(keys, 0)]))
    case Verified(vaa, index, time) =>
      :- Require(p.Booted() && p.first <= index <= p.Current());
      var s := p.sets[index - p.first];
      :- Require(s.expiry == 0 || time < s.expiry);
      :- Require(QuorumSigned(crypto, s.keys, vaa));
      Some(p)
  }

  /** A whole trace from a given state. */
  ghost function Replayed(crypto: Crypto, p: Protocol, trace: seq<Event>): Option<Protocol> {
    if trace == [] then Some(p)
    else
      var q :- Replayed(crypto, p, trace[..|trace| - 1]);
      Apply(crypto, q, trace[|trace| - 1])
  }

  lemma {:induction false} ReplayedAppend(crypto: Crypto, p: Protocol, s: seq<Event>, t: seq<Event>)
    requires Replayed(crypto, p, s).Some?
    ensures Replayed(crypto, p, s + t) == Replayed(crypto, Replayed(crypto, p, s).value, t)
  {
    if t == [] {
      assert s + t == s;
    } else {
      ReplayedAppend(crypto, p, s, t[..|t| - 1]);
      assert (s + t)[..|s + t| - 1] == s + t[..|t| - 1];
    }
  }

  lemma {:induction false} ReplayedPrefix(crypto: Crypto, p: Protocol, trace: seq<Event>, k: nat)
    requires Replayed(crypto, p, trace).Some? && k <= |trace|
    ensures Replayed(crypto, p, trace[..k]).Some?
  {
    if k < |trace| {
      ReplayedPrefix(crypto, p, trace[..|trace| - 1], k);
      assert trace[..|trace| - 1][..k] == trace[..k];
    } else {
      assert trace[..k] == trace;
    }
  }

  // ---------- what every legal trace satisfies ----------

  ghost predicate SeenAreAccepted(p: Protocol, trace: seq<Event>) {
    forall m :: m in p.seen <==> Accepted(m) in trace
  }

  lemma AcceptedStep(crypto: Crypto, p: Protocol, trace: seq<Event>, q: Protocol)
    requires trace != [] && SeenAreAccepted(p, trace[..|trace| - 1]) && Apply(crypto, p, trace[|trace| - 1]) == Some(q)
    ensures SeenAreAccepted(q, trace)
    ensures trace[|trace| - 1].Accepted? ==> trace[|trace| - 1] !in trace[..|trace| - 1]
  {
    hide QuorumSigned, ProperKeys;
    var n := |trace| - 1;
    assert trace == trace[..n] + [trace[n]];
  }

  /** The seen set is what was accepted, and nothing is accepted twice. */
  lemma {:induction false} AcceptedOnce(crypto: Crypto, trace: seq<Event>)
    requires Replayed(crypto, START, trace).Some?
    ensures SeenAreAccepted(Replayed(crypto, START, trace).value, trace)
    ensures forall i, j | 0 <= i < j < |trace| && trace[i].Accepted? :: trace[i] != trace[j]
  {
    if trace != [] {
      hide Apply, SeenAreAccepted;
      var n := |trace| - 1;
      AcceptedOnce(crypto, trace[..n]);
      AcceptedStep(crypto, Replayed(crypto, START, trace[..n]).value, trace, Replayed(crypto, START, trace).value);
      forall i, j | 0 <= i < j < |trace| && trace[i].Accepted? ensures trace[i] != trace[j] {
        assert trace[i] == trace[..n][i];
        assert j < n ==> trace[j] == trace[..n][j];
      }
    } else {
      assert Replayed(crypto, START, trace) == Some(START);
    }
  }

  function PublishedBy(trace: seq<Event>, sender: bytes): nat {
    if trace == [] then 0
    else
      PublishedBy(trace[..|trace| - 1], sender)
      + (match trace[|trace| - 1] case Published(w, _) => (if w == sender then 1 else 0) case _ => 0)
  }

  lemma {:induction false} CountIsPublications(crypto: Crypto, trace: seq<Event>, sender: bytes)
    requires Replayed(crypto, START, trace).Some?
    ensures Replayed(crypto, START, trace).value.Count(sender) == PublishedBy(trace, sender)
  {
    if trace != [] {
      CountIsPublications(crypto, trace[..|trace| - 1], sender);
    }
  }

  /** The k-th message a sender publishes carries the number k. */
  lemma SequenceNumbers(crypto: Crypto, trace: seq<Event>, i: nat)
    requires Replayed(crypto, START, trace).Some? && i < |trace| && trace[i].Published?
    ensures trace[i].sequence == PublishedBy(trace[..i], trace[i].sender) + 1
  {
    ReplayedPrefix(crypto, START, trace, i + 1);
    assert trace[..i + 1][..i] == trace[..i];
    CountIsPublications(crypto, trace[..i], trace[i].sender);
  }

  function Upgrades(trace: seq<Event>): nat {
    if trace == [] then 0
    else Upgrades(trace[..|trace| - 1]) + (if trace[|trace| - 1].Upgraded? then 1 else 0)
  }

  /** The line of sets a trace installs: boot and each upgrade contribute their keys, and each
      upgrade gives the previous set a day's grace. */
  function Line(trace: seq<Event>): seq<GuardianSet> {
    if trace == [] then []
    else
      var before := Line(trace[..|trace| - 1]);
      match trace[|trace| - 1]
      case Booted(_, keys) => [GuardianSet(keys, 0)]
      case Upgraded(_, keys, time) =>
        if before == [] || time + GRACE >= U64 then before
        else before[..|before| - 1] + [GuardianSet(before[|before| - 1].keys, time + GRACE), GuardianSet(keys, 0)]
      case _ => before
  }

  /** The index the contract was booted with. */
  function BootIndex(trace: seq<Event>): nat {
    if trace == [] then 0
    else match trace[|trace| - 1]
      case Booted(index, _) => index
      case _ => BootIndex(trace[..|trace| - 1])
  }

  ghost predicate OnlyLastRules(sets: seq<GuardianSet>) {
    forall i | 0 <= i < |sets| :: sets[i].expiry == 0 <==> i == |sets| - 1
  }

  ghost predicate Rotated(p: Protocol, trace: seq<Event>) {
    && p.sets == Line(trace) && p.first == BootIndex(trace)
    && (p.Booted() ==> p.Current() == p.first + Upgrades(trace))
    && (!p.Booted() ==> Upgrades(trace) == 0)
    && OnlyLastRules(p.sets)
  }

  lemma LineRules(sets: seq<GuardianSet>, expiry: uint64, keys: bytes)
    requires sets != [] && OnlyLastRules(sets) && expiry > 0
    ensures OnlyLastRules(sets[..|sets| - 1] + [GuardianSet(sets[|sets| - 1].keys, expiry), GuardianSet(keys, 0)])
  {
  }

  lemma RotationStep(crypto: Crypto, p: Protocol, trace: seq<Event>, q: Protocol)
    requires trace != [] && Rotated(p, trace[..|trace| - 1]) && Apply(crypto, p, trace[|trace| - 1]) == Some(q)
    ensures Rotated(q, trace)
  {
    hide QuorumSigned, ProperKeys, OnlyLastRules;
    match trace[|trace| - 1]
    case Booted(_, keys) =>
      OneRules(keys);
    case Upgraded(_, keys, time) =>
      LineRules(p.sets, time + GRACE, keys);
    case _ =>
  }

  lemma OneRules(keys: bytes)
    ensures OnlyLastRules([GuardianSet(keys, 0)])
  {
  }

  /** Rotation: indices advance by one per upgrade, the current set has no expiry, and every
      earlier set keeps its keys and expires a day after it was replaced. */
  lemma {:induction false} Rotation(crypto: Crypto, trace: seq<Event>)
    requires Replayed(crypto, START, trace).Some?
    ensures Rotated(Replayed(crypto, START, trace).value, trace)
  {
    if trace != [] {
      hide Apply, Rotated;
      var before := trace[..|trace| - 1];
      Rotation(crypto, before);
      RotationStep(crypto, Replayed(crypto, START, before).value, trace, Replayed(crypto, START, trace).value);
    }
  }

  /** Each event of a legal trace was allowed by the state its predecessors led to. */
  lemma EventAllowed(crypto: Crypto, trace: seq<Event>, i: nat) returns (p: Protocol)
    requires Replayed(crypto, START, trace).Some? && i < |trace|
    ensures Replayed(crypto, START, trace[..i]) == Some(p)
    ensures Apply(crypto, p, trace[i]).Some? && Replayed(crypto, START, trace[..i + 1]) == Apply(crypto, p, trace[i])
    ensures p.sets == Line(trace[..i]) && p.first == BootIndex(trace[..i]) && OnlyLastRules(p.sets)
  {
    ReplayedPrefix(crypto, START, trace, i + 1);
    assert trace[..i + 1][..i] == trace[..i];
    p := Replayed(crypto, START, trace[..i]).value;
    Rotation(crypto, trace[..i]);
  }

  /** The VAA carries a quorum of set `index` of the line that `before` installed, and at
      `time` that set was in force: the last one, or still in its day of grace. */
  ghost predicate SignedInForce(crypto: Crypto, before: seq<Event>, vaa: bytes, index: nat, time: uint64) {
    var sets, first := Line(before), BootIndex(before);
    && first <= index < first + |sets|
    && (index == first + |sets| - 1 || time < sets[index - first].expiry)
    && QuorumSigned(crypto, sets[index - first].keys, vaa)
  }

  lemma VerifiedWhileInForce(crypto: Crypto, trace: seq<Event>, i: nat)
    requires Replayed(crypto, START, trace).Some? && i < |trace| && trace[i].Verified?
    ensures SignedInForce(crypto, trace[..i], trace[i].vaa, trace[i].index, trace[i].time)
  {
    hide QuorumSigned, Replayed;
    var p := EventAllowed(crypto, trace, i);
  }

  /** The last set of the line that `before` installed signed the VAA, gets a day's grace, and
      is followed by the new keys in `after`. */
  ghost predicate ReplacedByOwnQuorum(crypto: Crypto, before: seq<Event>, after: seq<Event>, vaa: bytes, keys: bytes, time: uint64) {
    var sets := Line(before);
    && sets != []
    && time + GRACE < U64
    && QuorumSigned(crypto, sets[|sets| - 1].keys, vaa)
    && Line(after) == sets[..|sets| - 1] + [GuardianSet(sets[|sets| - 1].keys, time + GRACE), GuardianSet(keys, 0)]
  }

  lemma UpgradedByCurrent(crypto: Crypto, trace: seq<Event>, i: nat)
    requires Replayed(crypto, START, trace).Some? && i < |trace| && trace[i].Upgraded?
    ensures ReplacedByOwnQuorum(crypto, trace[..i], trace[..i + 1], trace[i].vaa, trace[i].keys, trace[i].time)
  {
    hide QuorumSigned, Replayed;
    var p := EventAllowed(crypto, trace, i);
    Rotation(crypto, trace[..i + 1]);
  }

  /** A set once retired is never touched again. */
  lemma {:induction false} RetiredForGood(crypto: Crypto, p: Protocol, trace: seq<Event>, i: nat)
    requires Replayed(crypto, p, trace).Some? && i + 1 < |p.sets|
    ensures
      var q := Replayed(crypto, p, trace).value;
      q.first == p.first && |p.sets| <= |q.sets| && q.sets[i] == p.sets[i]
  {
    if trace != [] {
      RetiredForGood(crypto, p, trace[..|trace| - 1], i);
    }
  }
}
