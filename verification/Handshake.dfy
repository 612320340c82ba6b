/**
The mutual HMAC handshake on the Manager's socket, as a step protocol over a
network that the adversary owns: it sees every frame, and delivers to any session
any frame it likes.

Frames and MAC inputs are byte strings laid out as on the wire.  A MAC under the
shared key is symbolic: the adversary may send any 32 bytes it wants, but a
genuine MAC only after some session has sent it.
*/
module Handshake {
  import opened Prelude

  type Bytes = seq<bv8>

  const NONCE_SIZE := 32
  const CLIENT_LABEL: Bytes := [0x63, 0x6c, 0x69, 0x65, 0x6e, 0x74]
  const MANAGER_LABEL: Bytes := [0x6d, 0x61, 0x6e, 0x61, 0x67, 0x65, 0x72]

  datatype Role = ClientRole | ManagerRole

  /** What is authenticated: the role label, the challenge, the nonce, concatenated. */
  function MacInput(role: Role, challenge: Bytes, nonce: Bytes): Bytes {
    (if role.ClientRole? then CLIENT_LABEL else MANAGER_LABEL) + challenge + nonce
  }

  /** Labels and fixed lengths make the concatenation unambiguous. */
  lemma MacInputInjective(r1: Role, c1: Bytes, n1: Bytes, r2: Role, c2: Bytes, n2: Bytes)
    requires |c1| == |n1| == |c2| == |n2| == NONCE_SIZE
    requires MacInput(r1, c1, n1) == MacInput(r2, c2, n2)
    ensures r1 == r2 && c1 == c2 && n1 == n2
  {
    var m := MacInput(r1, c1, n1);
    assert |m| == |MacInput(r2, c2, n2)|;
    var k := if r1.ClientRole? then |CLIENT_LABEL| else |MANAGER_LABEL|;
    assert m[k..k + NONCE_SIZE] == c1 && m[k..k + NONCE_SIZE] == c2;
    assert m[k + NONCE_SIZE..] == n1 && m[k + NONCE_SIZE..] == n2;
  }

  /** A 32-byte tag: the MAC of `input` under the shared key, or bytes that are no such MAC. */
  datatype Tag = Genuine(input: Bytes) | Junk(text: Bytes)

  datatype Manager =
    | Challenged(challenge: Bytes)
    | ManagerAccepted(challenge: Bytes, nonce: Bytes)
    | ManagerFailed(challenge: Bytes)

  datatype Client =
    | Replied(challenge: Bytes, nonce: Bytes)
    | ClientAccepted(challenge: Bytes, nonce: Bytes)
    | ClientFailed(challenge: Bytes, nonce: Bytes)

  /** `sent` is every genuine MAC that any session has put on the network. */
  datatype State = State(managers: map<nat, Manager>, clients: map<nat, Client>, sent: set<Tag>)

  const INITIAL := State(map[], map[], {})

  datatype Step =
    | Open(id: nat, challenge: Bytes)                      // Manager session: send the challenge
    | Answer(id: nat, challenge: Bytes, nonce: Bytes)      // Client session: a challenge arrives, reply
    | Check(id: nat, nonce: Bytes, tag: Tag)               // Manager session: a reply arrives
    | Confirm(id: nat, tag: Tag)                           // Client session: an answer arrives

  /** The adversary can deliver this tag. */
  predicate Deliverable(s: State, tag: Tag) {
    tag.Genuine? ==> tag in s.sent
  }

  /**
  Session identifiers are new, and so are the 32 random bytes each session draws;
  the other values are the adversary's choice.  A frame of the wrong length or
  magic is refused before any of these steps.
  */
  ghost predicate Enabled(s: State, step: Step) {
    match step
    case Open(id, challenge) =>
      id !in s.managers && |challenge| == NONCE_SIZE
      && forall m :: m in s.managers ==> s.managers[m].challenge != challenge
    case Answer(id, challenge, nonce) =>
      id !in s.clients && |challenge| == |nonce| == NONCE_SIZE
      && forall c :: c in s.clients ==> s.clients[c].nonce != nonce
    case Check(id, nonce, tag) =>
      id in s.managers && s.managers[id].Challenged? && |nonce| == NONCE_SIZE && Deliverable(s, tag)
    case Confirm(id, tag) =>
      id in s.clients && s.clients[id].Replied? && Deliverable(s, tag)
  }

  ghost function Next(s: State, step: Step): State
    requires Enabled(s, step)
  {
    match step
    case Open(id, challenge) => s.(managers := s.managers[id := Challenged(challenge)])
    case Answer(id, challenge, nonce) =>
      s.(clients := s.clients[id := Replied(challenge, nonce)],
         sent := s.sent + {Genuine(MacInput(ClientRole, challenge, nonce))})
    case Check(id, nonce, tag) =>
      var challenge := s.managers[id].challenge;
      if tag == Genuine(MacInput(ClientRole, challenge, nonce))
      then s.(managers := s.managers[id := ManagerAccepted(challenge, nonce)],
              sent := s.sent + {Genuine(MacInput(ManagerRole, challenge, nonce))})
      else s.(managers := s.managers[id := ManagerFailed(challenge)])
    case Confirm(id, tag) =>
      var Replied(challenge, nonce) := s.clients[id];
      if tag == Genuine(MacInput(ManagerRole, challenge, nonce))
      then s.(clients := s.clients[id := ClientAccepted(challenge, nonce)])
      else s.(clients := s.clients[id := ClientFailed(challenge, nonce)])
  }

  ghost function Run(steps: seq<Step>): Option<State> {
    if steps == [] then Some(INITIAL)
    else match Run(steps[..|steps| - 1])
      case None => None
      case Some(s) => if Enabled(s, steps[|steps| - 1]) then Some(Next(s, steps[|steps| - 1])) else None
  }

  // ---------------------------------------------------------------- invariant

  /** Client session `c` sent the reply for this challenge and its own nonce. */
  ghost predicate Produced(s: State, c: nat, challenge: Bytes, nonce: Bytes) {
    c in s.clients && s.clients[c].challenge == challenge && s.clients[c].nonce == nonce
  }

  /** Manager session `m` accepted this pair, for the challenge it issued. */
  ghost predicate Accepted(s: State, m: nat, challenge: Bytes, nonce: Bytes) {
    m in s.managers && s.managers[m] == ManagerAccepted(challenge, nonce)
  }

  ghost predicate Sizes(s: State) {
    && (forall m :: m in s.managers ==> |s.managers[m].challenge| == NONCE_SIZE)
    && (forall m :: m in s.managers && s.managers[m].ManagerAccepted? ==> |s.managers[m].nonce| == NONCE_SIZE)
    && (forall c :: c in s.clients ==> |s.clients[c].challenge| == |s.clients[c].nonce| == NONCE_SIZE)
  }

  /** Every genuine MAC on the network was sent by a session entitled to it. */
  ghost predicate Origins(s: State) {
    forall challenge: Bytes, nonce: Bytes :: |challenge| == |nonce| == NONCE_SIZE ==>
      && (Genuine(MacInput(ClientRole, challenge, nonce)) in s.sent ==> exists c :: Produced(s, c, challenge, nonce))
      && (Genuine(MacInput(ManagerRole, challenge, nonce)) in s.sent ==> exists m :: Accepted(s, m, challenge, nonce))
  }

  ghost predicate Agreement(s: State) {
    && (forall m, challenge, nonce :: Accepted(s, m, challenge, nonce) ==> exists c :: Produced(s, c, challenge, nonce))
    && (forall c :: c in s.clients && s.clients[c].ClientAccepted? ==>
          exists m :: Accepted(s, m, s.clients[c].challenge, s.clients[c].nonce))
  }

  ghost predicate Distinct(s: State) {
    && (forall m1, m2 :: m1 in s.managers && m2 in s.managers && m1 != m2 ==>
          s.managers[m1].challenge != s.managers[m2].challenge)
    && (forall c1, c2 :: c1 in s.clients && c2 in s.clients && c1 != c2 ==>
          s.clients[c1].nonce != s.clients[c2].nonce)
  }

  ghost predicate Inv(s: State) {
    Sizes(s) && Origins(s) && Agreement(s) && Distinct(s)
  }

  /** Sessions that produced or accepted a pair keep having done so. */
  lemma NextRemembers(s: State, step: Step)
    requires Enabled(s, step)
    ensures forall c, challenge, nonce :: Produced(s, c, challenge, nonce) ==> Produced(Next(s, step), c, challenge, nonce)
    ensures forall m, challenge, nonce :: Accepted(s, m, challenge, nonce) ==> Accepted(Next(s, step), m, challenge, nonce)
  {}

  lemma NextKeepsOrigins(s: State, step: Step)
    requires Inv(s) && Enabled(s, step)
    ensures Origins(Next(s, step))
  {
    var t := Next(s, step);
    NextRemembers(s, step);
    forall challenge: Bytes, nonce: Bytes | |challenge| == |nonce| == NONCE_SIZE
      ensures Genuine(MacInput(ClientRole, challenge, nonce)) in t.sent ==> exists c :: Produced(t, c, challenge, nonce)
      ensures Genuine(MacInput(ManagerRole, challenge, nonce)) in t.sent ==> exists m :: Accepted(t, m, challenge, nonce)
    {
      var g, h := Genuine(MacInput(ClientRole, challenge, nonce)), Genuine(MacInput(ManagerRole, challenge, nonce));
      if g in s.sent {
        var c :| Produced(s, c, challenge, nonce);
        assert Produced(t, c, challenge, nonce);
      } else if g in t.sent {
        NewTag(s, step, ClientRole, challenge, nonce);
      }
      if h in s.sent {
        var m :| Accepted(s, m, challenge, nonce);
        assert Accepted(t, m, challenge, nonce);
      } else if h in t.sent {
        NewTag(s, step, ManagerRole, challenge, nonce);
      }
    }
  }

  /** A MAC that this step puts on the network is the one of its own session, in its own role. */
  lemma NewTag(s: State, step: Step, role: Role, challenge: Bytes, nonce: Bytes)
    requires Sizes(s) && Enabled(s, step) && |challenge| == |nonce| == NONCE_SIZE
    requires Genuine(MacInput(role, challenge, nonce)) in Next(s, step).sent - s.sent
    ensures role.ClientRole? ==> Produced(Next(s, step), step.id, challenge, nonce)
    ensures role.ManagerRole? ==> Accepted(Next(s, step), step.id, challenge, nonce)
  {
    if step.Answer? {
      MacInputInjective(role, challenge, nonce, ClientRole, step.challenge, step.nonce);
    } else if step.Check? {
      MacInputInjective(role, challenge, nonce, ManagerRole, s.managers[step.id].challenge, step.nonce);
    }
  }

  lemma NextKeepsAgreement(s: State, step: Step)
    requires Inv(s) && Enabled(s, step)
    ensures Agreement(Next(s, step))
  {
    var t := Next(s, step);
    NextRemembers(s, step);
    forall m, challenge, nonce | Accepted(t, m, challenge, nonce) ensures exists c :: Produced(t, c, challenge, nonce) {
      if !Accepted(s, m, challenge, nonce) {
        assert step == Check(m, nonce, Genuine(MacInput(ClientRole, challenge, nonce)));
      }
      var c :| Produced(s, c, challenge, nonce);
      assert Produced(t, c, challenge, nonce);
    }
    forall c | c in t.clients && t.clients[c].ClientAccepted?
      ensures exists m :: Accepted(t, m, t.clients[c].challenge, t.clients[c].nonce)
    {
      var m :| Accepted(s, m, t.clients[c].challenge, t.clients[c].nonce);
      assert Accepted(t, m, t.clients[c].challenge, t.clients[c].nonce);
    }
  }

  lemma NextKeeps(s: State, step: Step)
    requires Inv(s) && Enabled(s, step)
    ensures Inv(Next(s, step))
  {
    NextKeepsOrigins(s, step);
    NextKeepsAgreement(s, step);
  }

  lemma {:induction false} RunKeeps(steps: seq<Step>)
    requires Run(steps).Some?
    ensures Inv(Run(steps).value)
  {
    if steps != [] {
      RunKeeps(steps[..|steps| - 1]);
      NextKeeps(Run(steps[..|steps| - 1]).value, steps[|steps| - 1]);
    }
  }

  // ---------------------------------------------------------------- theorems

  /** The exchange of two honest sessions over a network that delivers their frames. */
  function Honest(m: nat, c: nat, challenge: Bytes, nonce: Bytes): seq<Step> {
    [Open(m, challenge), Answer(c, challenge, nonce),
     Check(m, nonce, Genuine(MacInput(ClientRole, challenge, nonce))),
     Confirm(c, Genuine(MacInput(ManagerRole, challenge, nonce)))]
  }

  lemma {:induction false} RunOne(steps: seq<Step>, step: Step)
    requires Run(steps).Some? && Enabled(Run(steps).value, step)
    ensures Run(steps + [step]) == Some(Next(Run(steps).value, step))
  {
    assert (steps + [step])[..|steps|] == steps;
  }

  /** After every run, two new sessions whose frames are delivered accept each other. */
  lemma {:induction false} HonestSessionsAccept(steps: seq<Step>, m: nat, c: nat, challenge: Bytes, nonce: Bytes)
    requires Run(steps).Some? && |challenge| == |nonce| == 32
    requires var s := Run(steps).value;
      && m !in s.managers && c !in s.clients
      && (forall i :: i in s.managers ==> s.managers[i].challenge != challenge)
      && (forall i :: i in s.clients ==> s.clients[i].nonce != nonce)
    ensures Run(steps + Honest(m, c, challenge, nonce)).Some?
    ensures var t := Run(steps + Honest(m, c, challenge, nonce)).value;
      && m in t.managers && t.managers[m] == ManagerAccepted(challenge, nonce)
      && c in t.clients && t.clients[c] == ClientAccepted(challenge, nonce)
  {
    var run := Honest(m, c, challenge, nonce);
    RunOne(steps, run[0]);
    RunOne(steps + [run[0]], run[1]);
    RunOne(steps + [run[0]] + [run[1]], run[2]);
    RunOne(steps + [run[0]] + [run[1]] + [run[2]], run[3]);
    assert steps + [run[0]] + [run[1]] + [run[2]] + [run[3]] == steps + run;
  }

  /** The Manager accepts only what exactly one Client session answered, with its own nonce, to this very challenge. */
  lemma ManagerAgrees(steps: seq<Step>, m: nat) returns (c: nat)
    requires Run(steps).Some? && m in Run(steps).value.managers && Run(steps).value.managers[m].ManagerAccepted?
    ensures var s := Run(steps).value;
      && Produced(s, c, s.managers[m].challenge, s.managers[m].nonce)
      && forall c' :: Produced(s, c', s.managers[m].challenge, s.managers[m].nonce) ==> c' == c
  {
    RunKeeps(steps);
    var s := Run(steps).value;
    assert Accepted(s, m, s.managers[m].challenge, s.managers[m].nonce);
    c :| Produced(s, c, s.managers[m].challenge, s.managers[m].nonce);
  }

  /** The Client accepts only after exactly one Manager session, which issued the challenge, accepted the same pair. */
  lemma ClientAgrees(steps: seq<Step>, c: nat) returns (m: nat)
    requires Run(steps).Some? && c in Run(steps).value.clients && Run(steps).value.clients[c].ClientAccepted?
    ensures var s := Run(steps).value;
      && Accepted(s, m, s.clients[c].challenge, s.clients[c].nonce)
      && forall m' :: m' in s.managers && s.managers[m'].challenge == s.clients[c].challenge ==> m' == m
  {
    RunKeeps(steps);
    var s := Run(steps).value;
    m :| Accepted(s, m, s.clients[c].challenge, s.clients[c].nonce);
  }
}
