/** Provider-mode membership: a central provider and the clients that register with it and learn of each
    other from its replies (internal/cluster/provider.go, internal/cluster/provider_client.go). */
module Provider {
  import opened MapSums
  import opened Send
  import opened Wrappers

  type Id = string

  datatype PeerInfo = PeerInfo(nodeId: Id, addr: string)
  datatype ReplyAddress = ReplyAddress(addr: string, actorId: Id)

  type Peers = map<Id, PeerInfo>

  datatype Msg =
    | JoinCluster(info: Option<PeerInfo>)
    | LeaveCluster(nodeId: Id)
    | DiscoverPeers(replyTo: Option<ReplyAddress>)

  /** A reply on its way to the actor named in the request, at the address given there. */
  datatype Reply = Reply(replyTo: ReplyAddress, peers: seq<PeerInfo>)

  // ----- The provider -----

  function PeersAfter(peers: Peers, m: Msg): Peers {
    match m
    case JoinCluster(Some(info)) => peers[info.nodeId := info]
    case LeaveCluster(id) => peers - {id}
    case _ => peers
  }

  /** A list of all values of a membership map, in any order. */
  ghost predicate ListsPeers(peers: Peers, list: seq<PeerInfo>) {
    && (forall p :: p in list <==> exists id :: id in peers && peers[id] == p)
    && |list| == |peers|
  }

  /** Whether a message is answered. */
  predicate Answered(m: Msg) {
    m.DiscoverPeers? && m.replyTo.Some? && m.replyTo.value.addr != ""
  }

  class ProviderActor {
    var peers: Peers

    constructor ()
      ensures peers == map[]
    {
      peers := map[];
    }

    method Receive(m: Msg) returns (replies: seq<Reply>)
      modifies this
      ensures peers == PeersAfter(old(peers), m)
      ensures if Answered(m) then
                |replies| == 1 && replies[0].replyTo == m.replyTo.value && ListsPeers(old(peers), replies[0].peers)
              else replies == []
    {
      replies := [];
      match m {
        case JoinCluster(info) =>
          if info.Some? {
            peers := peers[info.value.nodeId := info.value];
          }
        case LeaveCluster(id) =>
          peers := peers - {id};
        case DiscoverPeers(to) =>
          if to.None? || to.value.addr == "" {
            return;
          }
          var list := ListAll();
          replies := [Reply(to.value, list)];
      }
    }

    method ListAll() returns (list: seq<PeerInfo>)
      ensures ListsPeers(peers, list)
    {
      list := [];
      var todo := peers.Keys;
      while todo != {}
        invariant todo <= peers.Keys
        invariant forall p :: p in list <==> exists id :: id in peers && id !in todo && peers[id] == p
        invariant |list| + |todo| == |peers|
        decreases todo
      {
        var id :| id in todo;
        ghost var before := list;
        list := list + [peers[id]];
        assert |todo - {id}| == |todo| - 1;
        todo := todo - {id};
        assert forall p :: p in list <==> p in before || p == peers[id];
      }
    }
  }

  // ----- Membership over any sequence of messages -----

  function MembersAfter(msgs: seq<Msg>): Peers {
    if msgs == [] then map[] else PeersAfter(MembersAfter(msgs[..|msgs| - 1]), msgs[|msgs| - 1])
  }

  predicate IsJoinOf(m: Msg, id: Id) {
    m.JoinCluster? && m.info.Some? && m.info.value.nodeId == id
  }

  /** A join of the id that no leave of it follows. */
  ghost predicate StandingJoin(msgs: seq<Msg>, id: Id, i: nat) {
    i < |msgs| && IsJoinOf(msgs[i], id) && forall j :: i < j < |msgs| ==> msgs[j] != LeaveCluster(id)
  }

  /** The last of them, with what it says. */
  ghost predicate LastJoin(msgs: seq<Msg>, i: nat, info: PeerInfo) {
    && i < |msgs| && msgs[i] == JoinCluster(Some(info))
    && forall j :: i < j < |msgs| ==> msgs[j] != LeaveCluster(info.nodeId) && !IsJoinOf(msgs[j], info.nodeId)
  }

  /** An id is a member exactly when it has joined and not left since. */
  lemma {:induction false} MemberExactlyWhen(msgs: seq<Msg>, id: Id)
    ensures id in MembersAfter(msgs) <==> exists i :: StandingJoin(msgs, id, i)
  {
    if msgs != [] {
      var k: nat := |msgs| - 1;
      MemberExactlyWhen(msgs[..k], id);
      if IsJoinOf(msgs[k], id) {
        assert StandingJoin(msgs, id, k);
      } else if msgs[k] == LeaveCluster(id) {
        forall i
          ensures !StandingJoin(msgs, id, i)
        {
        }
      } else {
        forall i
          ensures StandingJoin(msgs, id, i) <==> StandingJoin(msgs[..k], id, i)
        {
        }
      }
    }
  }

  /** A member's entry is what its last join says. */
  lemma {:induction false} EntryExactlyWhen(msgs: seq<Msg>, info: PeerInfo)
    ensures info.nodeId in MembersAfter(msgs) && MembersAfter(msgs)[info.nodeId] == info
            <==> exists i :: LastJoin(msgs, i, info)
  {
    if msgs != [] {
      var k: nat := |msgs| - 1;
      EntryExactlyWhen(msgs[..k], info);
      if msgs[k] == JoinCluster(Some(info)) {
        assert LastJoin(msgs, k, info);
      } else if IsJoinOf(msgs[k], info.nodeId) || msgs[k] == LeaveCluster(info.nodeId) {
        forall i
          ensures !LastJoin(msgs, i, info)
        {
        }
      } else {
        forall i
          ensures LastJoin(msgs, i, info) <==> LastJoin(msgs[..k], i, info)
        {
        }
      }
    }
  }

  lemma {:induction false} MembersWellKeyed(msgs: seq<Msg>)
    ensures WellKeyed(MembersAfter(msgs))
  {
    if msgs != [] {
      MembersWellKeyed(msgs[..|msgs| - 1]);
    }
  }

  ghost predicate Covers(list: seq<PeerInfo>, ids: set<Id>) {
    forall id :: id in ids ==> exists p :: p in list && p.nodeId == id
  }

  ghost predicate NoIdTwice(list: seq<PeerInfo>) {
    forall i, j :: 0 <= i < j < |list| ==> list[i].nodeId != list[j].nodeId
  }

  lemma CoversRest(list: seq<PeerInfo>, ids: set<Id>)
    requires list != [] && Covers(list, ids)
    ensures Covers(list[..|list| - 1], ids - {list[|list| - 1].nodeId})
  {
    var n := |list| - 1;
    assert list == list[..n] + [list[n]];
  }

  lemma {:induction false} CoverSize(list: seq<PeerInfo>, ids: set<Id>)
    requires Covers(list, ids)
    ensures |ids| <= |list|
  {
    if list == [] {
      assert forall id :: id !in ids;
      assert ids == {};
    } else {
      var n := |list| - 1;
      CoversRest(list, ids);
      CoverSize(list[..n], ids - {list[n].nodeId});
      assert ids <= (ids - {list[n].nodeId}) + {list[n].nodeId};
    }
  }

  /** As many entries as ids, and every id among them: no id comes twice. */
  lemma {:induction false} TightCover(list: seq<PeerInfo>, ids: set<Id>)
    requires Covers(list, ids) && |list| <= |ids|
    ensures NoIdTwice(list)
  {
    if list != [] {
      var n := |list| - 1;
      var last := list[n].nodeId;
      CoversRest(list, ids);
      CoverSize(list[..n], ids - {last});
      TightCover(list[..n], ids - {last});
      if exists i :: 0 <= i < n && list[i].nodeId == last {
        var i :| 0 <= i < n && list[i].nodeId == last;
        assert list[i] in list[..n];
        assert Covers(list[..n], ids) by {
          assert list == list[..n] + [list[n]];
        }
        CoverSize(list[..n], ids);
        assert false;
      }
    }
  }

  /** A reply sent after some messages lists exactly what the last joins not followed by a leave say, each
      id once. */
  lemma ReplyListsLastJoins(msgs: seq<Msg>, list: seq<PeerInfo>)
    requires ListsPeers(MembersAfter(msgs), list)
    ensures forall p :: p in list <==> exists i :: LastJoin(msgs, i, p)
    ensures NoIdTwice(list)
  {
    MembersWellKeyed(msgs);
    var peers := MembersAfter(msgs);
    assert Covers(list, peers.Keys) by {
      forall id | id in peers.Keys
        ensures exists p :: p in list && p.nodeId == id
      {
        assert peers[id] in list;
      }
    }
    TightCover(list, peers.Keys);
    forall p
      ensures p in list <==> exists i :: LastJoin(msgs, i, p)
    {
      EntryExactlyWhen(msgs, p);
    }
  }

  // ----- The client -----

  /** The view a client builds from a received list: later entries win. */
  function ViewOf(list: seq<PeerInfo>): Peers {
    if list == [] then map[]
    else
      var p := list[|list| - 1];
      ViewOf(list[..|list| - 1])[p.nodeId := p]
  }

  function Join(id: Id, addr: string): Msg {
    JoinCluster(Some(PeerInfo(id, addr)))
  }

  function Ask(id: Id, addr: string): Msg {
    DiscoverPeers(Some(ReplyAddress(addr, id)))
  }

  /** What reaches the provider when a client registers, its first attempt being call n: the peers
      are asked for only if the join was acknowledged. */
  function Registration(id: Id, addr: string, o: nat -> Attempt, n: nat, tries: nat): seq<Msg> {
    Repeat(Join(id, addr), Copies(o, n, tries))
    + if Succeeds(o, n, tries) then Repeat(Ask(id, addr), Copies(o, n + Made(o, n, tries), tries)) else []
  }

  /** A request for the peers never reaches the provider unless a join has reached it before. */
  lemma AskedAfterJoin(id: Id, addr: string, o: nat -> Attempt, n: nat, tries: nat)
    requires Ask(id, addr) in Registration(id, addr, o, n, tries)
    ensures Registration(id, addr, o, n, tries)[0] == Join(id, addr)
  {
    CopiesAre(o, n, tries);
    assert Ask(id, addr) !in Repeat(Join(id, addr), Copies(o, n, tries));
  }

  class ProviderClientActor {
    const selfId: Id
    const selfAddr: string
    var provider: Link?<Msg>
    var peers: Peers

    constructor (selfId: Id, selfAddr: string)
      ensures this.selfId == selfId && this.selfAddr == selfAddr && provider == null && peers == map[]
    {
      this.selfId := selfId;
      this.selfAddr := selfAddr;
      provider := null;
      peers := map[];
    }

    /** dialed is null when the provider cannot be dialed. */
    method OnStart(dialed: Link?<Msg>)
      modifies this`provider, dialed
      ensures provider == if dialed == null then old(provider) else dialed
      ensures dialed != null ==>
                dialed.inbox == old(dialed.inbox) + Registration(selfId, selfAddr, dialed.outcome, old(dialed.calls), ATTEMPTS)
    {
      if dialed == null {
        return;
      }
      provider := dialed;
      RegisterAndDiscover();
    }

    method ReceivePeerList(list: seq<PeerInfo>)
      modifies this`peers
      ensures peers == ViewOf(list)
    {
      peers := map[];
      for i := 0 to |list|
        invariant peers == ViewOf(list[..i])
      {
        assert list[..i + 1][..i] == list[..i];
        peers := peers[list[i].nodeId := list[i]];
      }
      assert list[..|list|] == list;
    }

    /** Called at the start and on every DiscoverNow. */
    method RegisterAndDiscover()
      modifies provider
      ensures provider != null ==>
                provider.inbox == old(provider.inbox) + Registration(selfId, selfAddr, provider.outcome, old(provider.calls), ATTEMPTS)
    {
      if provider != null {
        RegisterWith(ATTEMPTS);
      }
    }

    method RegisterWith(tries: nat)
      requires provider != null
      modifies provider
      ensures provider.inbox
              == old(provider.inbox) + Registration(selfId, selfAddr, provider.outcome, old(provider.calls), tries)
    {
      var joined := provider.Retry(Join(selfId, selfAddr), tries);
      if !joined {
        return;
      }
      var asked := provider.Retry(Ask(selfId, selfAddr), tries);
    }
  }

  /** A list of a well-keyed map is read back as that map, whatever its order. */
  lemma ViewOfListing(peers: Peers, list: seq<PeerInfo>)
    requires WellKeyed(peers) && ListsPeers(peers, list)
    ensures ViewOf(list) == peers
  {
    forall id
      ensures id in ViewOf(list) <==> id in peers
      ensures id in peers ==> id in ViewOf(list) && ViewOf(list)[id] == peers[id]
    {
      ViewEntry(list, id);
      if id in peers {
        assert peers[id] in list;
      }
    }
    SameEntries(ViewOf(list), peers);
  }

  ghost predicate WellKeyed(peers: Peers) {
    forall id :: id in peers ==> peers[id].nodeId == id
  }

  lemma {:induction false} ViewEntry(list: seq<PeerInfo>, id: Id)
    ensures id in ViewOf(list) <==> exists p :: p in list && p.nodeId == id
    ensures id in ViewOf(list) ==> ViewOf(list)[id] in list && ViewOf(list)[id].nodeId == id
  {
    if list != [] {
      var n := |list| - 1;
      assert list == list[..n] + [list[n]];
      ViewEntry(list[..n], id);
    }
  }

  /** Of several entries for an id the last one counts. */
  lemma {:induction false} ViewOfLast(list: seq<PeerInfo>, k: nat)
    requires k < |list| && forall j :: k < j < |list| ==> list[j].nodeId != list[k].nodeId
    ensures list[k].nodeId in ViewOf(list) && ViewOf(list)[list[k].nodeId] == list[k]
  {
    if k < |list| - 1 {
      ViewOfLast(list[..|list| - 1], k);
    }
  }

  // ----- The protocol -----

  /** The addresses of the clients, one per id. */
  datatype Config = Config(addrs: map<Id, string>)

  /** An attempt that was reported as failed may still arrive, at any later time, any number of times;
      so may a reply. */
  datatype State = State(
    peers: Peers,                  // the provider's membership
    inbox: seq<Msg>,               // the provider's mailbox: first in, first out
    late: seq<Msg>,                // messages that failed for the sender but may still arrive
    joined: set<Id>,               // clients whose join was acknowledged: they may ask for the peers
    replies: seq<Reply>,           // every reply ever sent
    views: map<Id, Peers>,         // the clients' current views
    history: seq<Peers>)           // bookkeeping: the membership at every moment so far

  const INIT: State := State(map[], [], [], {}, [], map[], [map[]])

  datatype Action =
    | TellJoin(id: Id, outcome: Attempt)
    | TellDiscover(id: Id, outcome: Attempt)
    | Rejoin(id: Id)                       // registerAndDiscover is called again
    | TellLeave(id: Id, outcome: Attempt)
    | Arrive(k: nat)                       // a late message reaches the mailbox
    | Handle(order: seq<PeerInfo>)         // the provider handles its next message
    | Deliver(k: nat, id: Id)              // a reply reaches the client it is addressed to

  function Enqueue(s: State, m: Msg, o: Attempt): State {
    match o
    case Accepted => s.(inbox := s.inbox + [m])
    case AcceptedButFailed => s.(late := s.late + [m])
    case Rejected => s
  }

  ghost predicate Next(c: Config, s: State, a: Action, s': State) {
    match a
    case TellJoin(id, o) =>
      && id in c.addrs
      && var t := Enqueue(s, Join(id, c.addrs[id]), o);
         s' == if o.Accepted? then t.(joined := t.joined + {id}) else t
    case TellDiscover(id, o) =>
      && id in c.addrs && id in s.joined
      && s' == Enqueue(s, Ask(id, c.addrs[id]), o)
    case Rejoin(id) =>
      s' == s.(joined := s.joined - {id})
    case TellLeave(id, o) =>
      s' == Enqueue(s, LeaveCluster(id), o)
    case Arrive(k) =>
      k < |s.late| && s' == s.(inbox := s.inbox + [s.late[k]])
    case Handle(order) =>
      && s.inbox != []
      && var m := s.inbox[0]; var peers := PeersAfter(s.peers, m);
         && (Answered(m) ==> ListsPeers(s.peers, order))
         && s' == s.(peers := peers, inbox := s.inbox[1..], history := s.history + [peers],
                     replies := if Answered(m) then s.replies + [Reply(m.replyTo.value, order)] else s.replies)
    case Deliver(k, id) =>
      && k < |s.replies| && id in c.addrs && s.replies[k].replyTo == ReplyAddress(c.addrs[id], id)
      && s' == s.(views := s.views[id := ViewOf(s.replies[k].peers)])
  }

  ghost predicate IsRun(c: Config, states: seq<State>, actions: seq<Action>) {
    && |states| == |actions| + 1
    && states[0] == INIT
    && forall i :: 0 <= i < |actions| ==> StepAt(c, states, actions, i)
  }

  ghost predicate StepAt(c: Config, states: seq<State>, actions: seq<Action>, i: nat)
    requires i < |actions| && |states| == |actions| + 1
  {
    Next(c, states[i], actions[i], states[i + 1])
  }

  // ----- Every view is a moment of the provider's history -----

  ghost predicate HistoryInv(s: State) {
    && WellKeyed(s.peers)
    && s.peers in s.history
    && (forall r :: r in s.replies ==> ViewOf(r.peers) in s.history)
    && (forall id :: id in s.views ==> s.views[id] in s.history)
  }

  lemma StepKeepsHistory(c: Config, s: State, a: Action, s': State)
    requires HistoryInv(s) && Next(c, s, a, s')
    ensures HistoryInv(s')
  {
    match a {
      case Handle(order) =>
        assert forall p :: p in s.history ==> p in s'.history;
        if Answered(s.inbox[0]) {
          ViewOfListing(s.peers, order);
        }
      case Deliver(k, id) =>
        assert s.replies[k] in s.replies;
      case _ =>
    }
  }

  /** Under loss, duplication, delay and reordering, with clients joining and leaving at will: every
      client's view is the provider's membership at some moment. */
  lemma {:induction false} ViewsAreMoments(c: Config, states: seq<State>, actions: seq<Action>, i: nat)
    requires IsRun(c, states, actions) && i < |states|
    ensures HistoryInv(states[i])
  {
    if i > 0 {
      ViewsAreMoments(c, states, actions, i - 1);
      assert StepAt(c, states, actions, i - 1);
      StepKeepsHistory(c, states[i - 1], actions[i - 1], states[i]);
    }
  }

  /** The messages the provider has handled by the i-th state. */
  ghost function Handled(states: seq<State>, actions: seq<Action>, i: nat): seq<Msg>
    requires i <= |actions| && |states| == |actions| + 1
  {
    if i == 0 then []
    else
      Handled(states, actions, i - 1)
      + if actions[i - 1].Handle? && states[i - 1].inbox != [] then [states[i - 1].inbox[0]] else []
  }

  /** The membership, now and at every moment of the past, is what the messages h handled by then make
      it. */
  ghost predicate IsHistory(s: State, h: seq<Msg>) {
    && s.peers == MembersAfter(h)
    && |s.history| == |h| + 1
    && forall j :: 0 <= j < |s.history| ==> s.history[j] == MembersAfter(h[..j])
  }

  lemma HistoryNext(s: State, h: seq<Msg>, m: Msg, s': State)
    requires IsHistory(s, h)
    requires s'.peers == PeersAfter(s.peers, m) && s'.history == s.history + [s'.peers]
    ensures IsHistory(s', h + [m])
  {
    var g := h + [m];
    assert g[..|h|] == h && g[..|g|] == g;
    forall j | 0 <= j < |s'.history|
      ensures s'.history[j] == MembersAfter(g[..j])
    {
      if j <= |h| {
        assert g[..j] == h[..j];
      }
    }
  }

  lemma {:induction false} HistoryIsMembership(c: Config, states: seq<State>, actions: seq<Action>, i: nat)
    requires IsRun(c, states, actions) && i < |states|
    ensures IsHistory(states[i], Handled(states, actions, i))
  {
    if i > 0 {
      var before, s := Handled(states, actions, i - 1), states[i - 1];
      HistoryIsMembership(c, states, actions, i - 1);
      assert StepAt(c, states, actions, i - 1);
      if actions[i - 1].Handle? {
        HistoryNext(s, before, s.inbox[0], states[i]);
      } else {
        assert before + [] == before;
      }
    }
  }

  /** What a client sees: for some moment, exactly what the last joins handled by then and not followed
      by a leave say. */
  lemma ViewsShowLastJoins(c: Config, states: seq<State>, actions: seq<Action>, i: nat, id: Id) returns (k: nat)
    requires IsRun(c, states, actions) && i < |states| && id in states[i].views
    ensures k <= |Handled(states, actions, i)|
    ensures forall p: PeerInfo :: (p.nodeId in states[i].views[id] && states[i].views[id][p.nodeId] == p
                                   <==> exists j :: LastJoin(Handled(states, actions, i)[..k], j, p))
  {
    ViewsAreMoments(c, states, actions, i);
    HistoryIsMembership(c, states, actions, i);
    k :| 0 <= k < |states[i].history| && states[i].history[k] == states[i].views[id];
    var h := Handled(states, actions, i)[..k];
    forall p: PeerInfo
      ensures p.nodeId in MembersAfter(h) && MembersAfter(h)[p.nodeId] == p <==> exists j :: LastJoin(h, j, p)
    {
      EntryExactlyWhen(h, p);
    }
  }

  /** A client's request is answered with one reply that can be delivered to it and shows it the members of
      that moment. */
  lemma AskIsAnswered(c: Config, s: State, id: Id, order: seq<PeerInfo>, s': State) returns (t: State)
    requires id in c.addrs && c.addrs[id] != "" && WellKeyed(s.peers)
    requires s.inbox != [] && s.inbox[0] == Ask(id, c.addrs[id]) && Next(c, s, Handle(order), s')
    ensures |s'.replies| == |s.replies| + 1 && s'.replies[..|s.replies|] == s.replies
    ensures Next(c, s', Deliver(|s.replies|, id), t) && id in t.views && t.views[id] == s.peers
  {
    ViewOfListing(s.peers, order);
    t := s'.(views := s'.views[id := ViewOf(order)]);
  }

  /** Nothing else is answered. */
  lemma OnlyAddressedRequestsAreAnswered(c: Config, s: State, order: seq<PeerInfo>, s': State)
    requires Next(c, s, Handle(order), s')
    ensures s'.replies != s.replies <==> exists addr, id :: addr != "" && s.inbox[0] == DiscoverPeers(Some(ReplyAddress(addr, id)))
  {
    var m := s.inbox[0];
    if Answered(m) {
      assert m == DiscoverPeers(Some(ReplyAddress(m.replyTo.value.addr, m.replyTo.value.actorId)));
      assert |s'.replies| == |s.replies| + 1;
    }
  }

  // ----- A client finds itself in every view it receives -----

  /** No leave for this id is told in the first n steps. */
  ghost predicate NoLeaveOf(actions: seq<Action>, id: Id, n: nat)
    requires n <= |actions|
  {
    forall k :: 0 <= k < n ==> !(actions[k].TellLeave? && actions[k].id == id)
  }

  /** The id is a member, at its own address. */
  predicate Listed(c: Config, peers: Peers, id: Id)
    requires id in c.addrs
  {
    id in peers && peers[id] == PeerInfo(id, c.addrs[id])
  }

  /** The id is a member already, or its join is among the first n messages of the mailbox. */
  ghost predicate JoinedBy(c: Config, peers: Peers, inbox: seq<Msg>, id: Id, n: nat)
    requires id in c.addrs && n <= |inbox|
  {
    Listed(c, peers, id) || exists j :: 0 <= j < n && inbox[j] == Join(id, c.addrs[id])
  }

  /** A message behind n others of the mailbox: joins come from clients with their own addresses, no
      leave is for this id, and a request of this id for the peers comes after its join. */
  ghost predicate MsgOk(c: Config, peers: Peers, inbox: seq<Msg>, m: Msg, n: nat, id: Id)
    requires id in c.addrs && n <= |inbox|
  {
    match m
    case JoinCluster(Some(p)) => p.nodeId in c.addrs && p.addr == c.addrs[p.nodeId]
    case JoinCluster(None) => true
    case LeaveCluster(x) => x != id
    case DiscoverPeers(Some(to)) => to.actorId == id ==> to.addr == c.addrs[id] && JoinedBy(c, peers, inbox, id, n)
    case DiscoverPeers(None) => true
  }

  ghost predicate InboxOk(c: Config, peers: Peers, inbox: seq<Msg>, id: Id)
    requires id in c.addrs
  {
    forall i :: 0 <= i < |inbox| ==> MsgOk(c, peers, inbox, inbox[i], i, id)
  }

  ghost predicate MembersOk(c: Config, peers: Peers) {
    forall id :: id in peers ==> id in c.addrs && peers[id] == PeerInfo(id, c.addrs[id])
  }

  ghost predicate SelfInv(c: Config, s: State, id: Id)
    requires id in c.addrs
  {
    && MembersOk(c, s.peers)
    && InboxOk(c, s.peers, s.inbox, id)
    && (forall m :: m in s.late ==> MsgOk(c, s.peers, s.inbox, m, |s.inbox|, id))
    && (id in s.joined ==> JoinedBy(c, s.peers, s.inbox, id, |s.inbox|))
    && (forall r :: r in s.replies && r.replyTo.actorId == id ==> Listed(c, ViewOf(r.peers), id))
    && (id in s.views ==> Listed(c, s.views[id], id))
  }

  /** A longer mailbox only adds ways to have joined. */
  lemma JoinedLonger(c: Config, peers: Peers, inbox: seq<Msg>, m: Msg, id: Id, n: nat)
    requires id in c.addrs && n <= |inbox| && JoinedBy(c, peers, inbox, id, n)
    ensures JoinedBy(c, peers, inbox + [m], id, n) && JoinedBy(c, peers, inbox + [m], id, |inbox| + 1)
  {
    assert forall j :: 0 <= j < |inbox| ==> (inbox + [m])[j] == inbox[j];
  }

  lemma MsgLonger(c: Config, peers: Peers, inbox: seq<Msg>, m: Msg, x: Msg, n: nat, id: Id)
    requires id in c.addrs && n <= |inbox| && MsgOk(c, peers, inbox, x, n, id)
    ensures MsgOk(c, peers, inbox + [m], x, n, id) && MsgOk(c, peers, inbox + [m], x, |inbox| + 1, id)
  {
    if x.DiscoverPeers? && x.replyTo.Some? && x.replyTo.value.actorId == id {
      JoinedLonger(c, peers, inbox, m, id, n);
    }
  }

  lemma EnqueueKeeps(c: Config, s: State, m: Msg, id: Id)
    requires id in c.addrs && SelfInv(c, s, id) && MsgOk(c, s.peers, s.inbox, m, |s.inbox|, id)
    ensures SelfInv(c, s.(inbox := s.inbox + [m]), id)
  {
    var inbox := s.inbox + [m];
    forall i | 0 <= i < |inbox|
      ensures MsgOk(c, s.peers, inbox, inbox[i], i, id)
    {
      MsgLonger(c, s.peers, s.inbox, m, inbox[i], i, id);
    }
    forall x | x in s.late
      ensures MsgOk(c, s.peers, inbox, x, |inbox|, id)
    {
      MsgLonger(c, s.peers, s.inbox, m, x, |s.inbox|, id);
    }
    if id in s.joined {
      JoinedLonger(c, s.peers, s.inbox, m, id, |s.inbox|);
    }
  }

  /** Telling a message leaves it in the mailbox, on its way, or nowhere. */
  lemma TellKeeps(c: Config, s: State, m: Msg, o: Attempt, id: Id)
    requires id in c.addrs && SelfInv(c, s, id) && MsgOk(c, s.peers, s.inbox, m, |s.inbox|, id)
    ensures SelfInv(c, Enqueue(s, m, o), id)
  {
    if o.Accepted? {
      EnqueueKeeps(c, s, m, id);
    }
  }

  /** Handling the first message leaves a client that had joined joined. */
  lemma HandleKeepsJoined(c: Config, peers: Peers, inbox: seq<Msg>, id: Id, n: nat)
    requires inbox != [] && id in c.addrs && 1 <= n <= |inbox|
    requires MsgOk(c, peers, inbox, inbox[0], 0, id) && JoinedBy(c, peers, inbox, id, n)
    ensures JoinedBy(c, PeersAfter(peers, inbox[0]), inbox[1..], id, n - 1)
  {
    if !Listed(c, peers, id) {
      var j :| 0 <= j < n && inbox[j] == Join(id, c.addrs[id]);
      if j > 0 {
        assert inbox[1..][j - 1] == inbox[j];
      }
    }
  }

  lemma HandleKeepsMsg(c: Config, peers: Peers, inbox: seq<Msg>, x: Msg, n: nat, id: Id)
    requires inbox != [] && id in c.addrs && 1 <= n <= |inbox|
    requires MsgOk(c, peers, inbox, inbox[0], 0, id) && MsgOk(c, peers, inbox, x, n, id)
    ensures MsgOk(c, PeersAfter(peers, inbox[0]), inbox[1..], x, n - 1, id)
  {
    if x.DiscoverPeers? && x.replyTo.Some? && x.replyTo.value.actorId == id {
      HandleKeepsJoined(c, peers, inbox, id, n);
    }
  }

  lemma HandleKeepsSelf(c: Config, s: State, order: seq<PeerInfo>, s': State, id: Id)
    requires id in c.addrs && SelfInv(c, s, id) && Next(c, s, Handle(order), s')
    ensures SelfInv(c, s', id)
  {
    var m := s.inbox[0];
    assert MsgOk(c, s.peers, s.inbox, m, 0, id);
    forall i | 0 <= i < |s'.inbox|
      ensures MsgOk(c, s'.peers, s'.inbox, s'.inbox[i], i, id)
    {
      HandleKeepsMsg(c, s.peers, s.inbox, s.inbox[i + 1], i + 1, id);
    }
    forall x | x in s'.late
      ensures MsgOk(c, s'.peers, s'.inbox, x, |s'.inbox|, id)
    {
      HandleKeepsMsg(c, s.peers, s.inbox, x, |s.inbox|, id);
    }
    if id in s.joined {
      HandleKeepsJoined(c, s.peers, s.inbox, id, |s.inbox|);
    }
    if Answered(m) {
      ViewOfListing(s.peers, order);
      assert m.replyTo.value.actorId == id ==> JoinedBy(c, s.peers, s.inbox, id, 0);
    }
  }

  lemma StepKeepsSelf(c: Config, s: State, a: Action, s': State, id: Id)
    requires id in c.addrs && SelfInv(c, s, id) && Next(c, s, a, s') && !(a.TellLeave? && a.id == id)
    ensures SelfInv(c, s', id)
  {
    match a {
      case TellJoin(x, o) =>
        TellKeeps(c, s, Join(x, c.addrs[x]), o, id);
        if o.Accepted? {
          assert s'.inbox[|s.inbox|] == Join(x, c.addrs[x]);
        }
      case TellDiscover(x, o) => TellKeeps(c, s, Ask(x, c.addrs[x]), o, id);
      case TellLeave(x, o) => TellKeeps(c, s, LeaveCluster(x), o, id);
      case Arrive(k) =>
        assert s.late[k] in s.late;
        EnqueueKeeps(c, s, s.late[k], id);
      case Handle(order) => HandleKeepsSelf(c, s, order, s', id);
      case Deliver(k, x) =>
        assert s.replies[k] in s.replies;
      case Rejoin(_) =>
    }
  }

  /** As long as no leave was told for a client's id, whoever else leaves, every view the client has
      received shows the client itself at its own address. */
  lemma {:induction false} ClientsSeeThemselves(c: Config, states: seq<State>, actions: seq<Action>, i: nat, id: Id)
    requires IsRun(c, states, actions) && i < |states| && id in c.addrs && NoLeaveOf(actions, id, i)
    ensures SelfInv(c, states[i], id)
    ensures id in states[i].views ==> Listed(c, states[i].views[id], id)
  {
    if i > 0 {
      ClientsSeeThemselves(c, states, actions, i - 1, id);
      assert StepAt(c, states, actions, i - 1);
      StepKeepsSelf(c, states[i - 1], actions[i - 1], states[i], id);
    }
  }

  // ----- Discovery is complete -----

  function AllMembers(c: Config): Peers {
    map id | id in c.addrs :: PeerInfo(id, c.addrs[id])
  }

  /** A member whose leave is never told stays a member. */
  lemma {:induction false} MemberStays(c: Config, states: seq<State>, actions: seq<Action>, i: nat, j: nat, id: Id)
    requires IsRun(c, states, actions) && i <= j < |states| && id in c.addrs && NoLeaveOf(actions, id, j)
    requires id in states[i].peers
    ensures id in states[j].peers
  {
    if i < j {
      MemberStays(c, states, actions, i, j - 1, id);
      ClientsSeeThemselves(c, states, actions, j - 1, id);
      assert StepAt(c, states, actions, j - 1);
      var s := states[j - 1];
      if actions[j - 1].Handle? {
        assert MsgOk(c, s.peers, s.inbox, s.inbox[0], 0, id);
      }
    }
  }

  /** No leave was told for any client. */
  ghost predicate NoLeave(c: Config, actions: seq<Action>, n: nat)
    requires n <= |actions|
  {
    forall id :: id in c.addrs ==> NoLeaveOf(actions, id, n)
  }

  lemma MembersComplete(c: Config, states: seq<State>, actions: seq<Action>, i: nat, j: nat)
    requires IsRun(c, states, actions) && i <= j < |states| && NoLeave(c, actions, j)
    requires c.addrs != map[] && forall id :: id in c.addrs ==> id in states[i].peers
    ensures WellKeyed(states[j].peers) && states[j].peers == AllMembers(c)
  {
    forall id | id in c.addrs
      ensures id in states[j].peers && MembersOk(c, states[j].peers)
    {
      MemberStays(c, states, actions, i, j, id);
      ClientsSeeThemselves(c, states, actions, j, id);
    }
    var some :| some in c.addrs;
    assert MembersOk(c, states[j].peers);
    SameEntries(states[j].peers, AllMembers(c));
  }

  /** Replies sent after every client has become a member list all of them. */
  lemma {:induction false} RepliesComplete(c: Config, states: seq<State>, actions: seq<Action>, i: nat, j: nat, k: nat)
    requires IsRun(c, states, actions) && i <= j < |states| && NoLeave(c, actions, j)
    requires c.addrs != map[] && forall id :: id in c.addrs ==> id in states[i].peers
    requires |states[i].replies| <= k < |states[j].replies|
    ensures ViewOf(states[j].replies[k].peers) == AllMembers(c)
    decreases j
  {
    assert StepAt(c, states, actions, j - 1);
    var s := states[j - 1];
    assert NoLeave(c, actions, j - 1) by {
      assert forall id :: id in c.addrs ==> NoLeaveOf(actions, id, j);
    }
    if k < |s.replies| {
      RepliesComplete(c, states, actions, i, j - 1, k);
    } else {
      MembersComplete(c, states, actions, i, j - 1);
      ViewOfListing(s.peers, actions[j - 1].order);
    }
  }

  /** Once every client has become a member, and as long as no client leaves, a client that receives a
      reply sent since then sees everyone. */
  lemma DiscoveryIsComplete(c: Config, states: seq<State>, actions: seq<Action>, i: nat, j: nat)
    requires IsRun(c, states, actions) && i <= j < |actions| && NoLeave(c, actions, j)
    requires forall id :: id in c.addrs ==> id in states[i].peers
    requires actions[j].Deliver? && actions[j].k >= |states[i].replies|
    ensures actions[j].id in states[j + 1].views && states[j + 1].views[actions[j].id] == AllMembers(c)
  {
    assert StepAt(c, states, actions, j);
    RepliesComplete(c, states, actions, i, j, actions[j].k);
  }

  // ----- A registration is a piece of a run -----

  ghost predicate IsPath(c: Config, states: seq<State>, actions: seq<Action>) {
    |states| == |actions| + 1 && forall i :: 0 <= i < |actions| ==> StepAt(c, states, actions, i)
  }

  /** The steps of up to so many attempts to tell a message, with the outcomes from the n-th on. */
  function Attempts(tell: Attempt -> Action, o: nat -> Attempt, n: nat, tries: nat): seq<Action>
    decreases tries
  {
    if tries == 0 then []
    else [tell(o(n))] + if o(n).Accepted? then [] else Attempts(tell, o, n + 1, tries - 1)
  }

  function JoinTold(id: Id): Attempt -> Action {
    (x: Attempt) => TellJoin(id, x)
  }

  function AskTold(id: Id): Attempt -> Action {
    (x: Attempt) => TellDiscover(id, x)
  }

  /** The steps of registerAndDiscover: join, and ask if the join was acknowledged. */
  function RegistrationSteps(id: Id, o: nat -> Attempt, n: nat, tries: nat): seq<Action> {
    Attempts(JoinTold(id), o, n, tries)
    + if Succeeds(o, n, tries) then Attempts(AskTold(id), o, n + Made(o, n, tries), tries) else []
  }

  /** The messages a piece of a run hands to the network or to the provider's mailbox. */
  function Handed(c: Config, actions: seq<Action>): seq<Msg> {
    if actions == [] then []
    else HandedBy(c, actions[0]) + Handed(c, actions[1..])
  }

  function HandedBy(c: Config, a: Action): seq<Msg> {
    match a
    case TellJoin(id, o) => if o.Rejected? || id !in c.addrs then [] else [Join(id, c.addrs[id])]
    case TellDiscover(id, o) => if o.Rejected? || id !in c.addrs then [] else [Ask(id, c.addrs[id])]
    case _ => []
  }

  lemma {:induction false} HandedAppend(c: Config, a: seq<Action>, b: seq<Action>)
    ensures Handed(c, a + b) == Handed(c, a) + Handed(c, b)
  {
    if a == [] {
      assert a + b == b;
    } else {
      assert (a + b)[1..] == a[1..] + b;
      HandedAppend(c, a[1..], b);
    }
  }

  lemma {:induction false} AttemptsHand(c: Config, tell: Attempt -> Action, m: Msg, o: nat -> Attempt, n: nat, tries: nat)
    requires forall x :: HandedBy(c, tell(x)) == if x.Rejected? then [] else [m]
    ensures Handed(c, Attempts(tell, o, n, tries)) == Repeat(m, Copies(o, n, tries))
    decreases tries
  {
    if tries > 0 {
      var rest := if o(n).Accepted? then [] else Attempts(tell, o, n + 1, tries - 1);
      var more := if o(n).Accepted? then 0 else Copies(o, n + 1, tries - 1);
      if !o(n).Accepted? {
        AttemptsHand(c, tell, m, o, n + 1, tries - 1);
      }
      assert Handed(c, rest) == Repeat(m, more);
      HandedFirst(c, tell(o(n)), rest);
      assert [m] + Repeat(m, more) == Repeat(m, more + 1);
    }
  }

  lemma HandedFirst(c: Config, a: Action, rest: seq<Action>)
    ensures Handed(c, [a] + rest) == HandedBy(c, a) + Handed(c, rest)
  {
    assert ([a] + rest)[1..] == rest;
  }

  /** What the client's method sends is what its steps hand over. */
  lemma StepsHandRegistration(c: Config, id: Id, o: nat -> Attempt, n: nat, tries: nat)
    requires id in c.addrs
    ensures Handed(c, RegistrationSteps(id, o, n, tries)) == Registration(id, c.addrs[id], o, n, tries)
  {
    var joins := Attempts(JoinTold(id), o, n, tries);
    AttemptsHand(c, JoinTold(id), Join(id, c.addrs[id]), o, n, tries);
    if Succeeds(o, n, tries) {
      var from := n + Made(o, n, tries);
      AttemptsHand(c, AskTold(id), Ask(id, c.addrs[id]), o, from, tries);
      HandedAppend(c, joins, Attempts(AskTold(id), o, from, tries));
    } else {
      HandedAppend(c, joins, []);
    }
  }

  lemma PathJoin(c: Config, ss: seq<State>, a: seq<Action>, ts: seq<State>, b: seq<Action>)
    requires IsPath(c, ss, a) && IsPath(c, ts, b) && ts[0] == ss[|a|]
    ensures IsPath(c, ss + ts[1..], a + b)
  {
    forall i | 0 <= i < |a + b|
      ensures StepAt(c, ss + ts[1..], a + b, i)
    {
      if i < |a| {
        assert StepAt(c, ss, a, i);
      } else {
        assert StepAt(c, ts, b, i - |a|);
      }
    }
  }

  lemma {:induction false} JoinsArePath(c: Config, id: Id, o: nat -> Attempt, n: nat, tries: nat, s: State)
    returns (states: seq<State>)
    requires id in c.addrs
    ensures IsPath(c, states, Attempts(JoinTold(id), o, n, tries)) && states[0] == s
    ensures Succeeds(o, n, tries) ==> id in states[|states| - 1].joined
    decreases tries
  {
    if tries == 0 {
      states := [s];
    } else {
      var t := Enqueue(s, Join(id, c.addrs[id]), o(n));
      var s' := if o(n).Accepted? then t.(joined := t.joined + {id}) else t;
      var rest := [s'];
      if !o(n).Accepted? {
        rest := JoinsArePath(c, id, o, n + 1, tries - 1, s');
      }
      var tail: seq<Action> := if o(n).Accepted? then [] else Attempts(JoinTold(id), o, n + 1, tries - 1);
      assert StepAt(c, [s, s'], [TellJoin(id, o(n))], 0);
      PathJoin(c, [s, s'], [TellJoin(id, o(n))], rest, tail);
      states := [s, s'] + rest[1..];
    }
  }

  lemma {:induction false} AsksArePath(c: Config, id: Id, o: nat -> Attempt, n: nat, tries: nat, s: State)
    returns (states: seq<State>)
    requires id in c.addrs && id in s.joined
    ensures IsPath(c, states, Attempts(AskTold(id), o, n, tries)) && states[0] == s
    decreases tries
  {
    if tries == 0 {
      states := [s];
    } else {
      var s' := Enqueue(s, Ask(id, c.addrs[id]), o(n));
      var rest := [s'];
      if !o(n).Accepted? {
        rest := AsksArePath(c, id, o, n + 1, tries - 1, s');
      }
      var tail: seq<Action> := if o(n).Accepted? then [] else Attempts(AskTold(id), o, n + 1, tries - 1);
      assert StepAt(c, [s, s'], [TellDiscover(id, o(n))], 0);
      PathJoin(c, [s, s'], [TellDiscover(id, o(n))], rest, tail);
      states := [s, s'] + rest[1..];
    }
  }

  /** From every state of the protocol a registration is a sequence of its steps: the state machine can
      do what the client's method does. */
  lemma RegistrationIsPath(c: Config, id: Id, o: nat -> Attempt, n: nat, tries: nat, s: State) returns (states: seq<State>)
    requires id in c.addrs
    ensures IsPath(c, states, RegistrationSteps(id, o, n, tries)) && states[0] == s
    ensures Handed(c, RegistrationSteps(id, o, n, tries)) == Registration(id, c.addrs[id], o, n, tries)
  {
    StepsHandRegistration(c, id, o, n, tries);
    var joins := Attempts(JoinTold(id), o, n, tries);
    var ss := JoinsArePath(c, id, o, n, tries, s);
    if Succeeds(o, n, tries) {
      var from := n + Made(o, n, tries);
      var ts := AsksArePath(c, id, o, from, tries, ss[|ss| - 1]);
      PathJoin(c, ss, joins, ts, Attempts(AskTold(id), o, from, tries));
      states := ss + ts[1..];
    } else {
      states := ss;
      assert joins + [] == joins;
    }
  }
}
