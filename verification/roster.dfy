/**
 * Roster messaging of the player manager: which client hears about which
 * player entity when a client enters or leaves a map channel
 * (CellIntroduceClientToPlayers, CellIntroducePlayersToClient,
 * CellDiscardClientToPlayers, CellDiscardPlayersToClient).
 *
 * Object identity is value identity here: a player carries its own id and a
 * map-channel client its client entity id, so two distinct objects never
 * compare equal.
 */
module Roster {

  import opened Wrappers
  import opened Messages

  /** The parts of a player the roster code reads: identity, connection, actor entity and class. */
  datatype Player = Player(playerId: int, client: ClientId, actorId: int, classId: int)

  /** A client inside a map channel; its player may be null. */
  datatype MapChannelClient = MapChannelClient(clientEntityId: int, client: ClientId, player: Option<Player>)

  /** The describe packets sent after the create when a player is introduced to its peers. */
  const IntroduceToPeersKinds: seq<Kind> := [
    AttributeInfo, PreloadData, AppearanceData, ActorControllerInfo, Level, CharacterClass,
    CharacterName, ActorName, IsRunning, LogosStoneTabula, WorldLocationDescriptor,
    TargetCategory, PlayerFlags]

  /** The describe packets sent after the create when peers are introduced to a player. */
  const IntroducePeersKinds: seq<Kind> := [
    AttributeInfo, AppearanceData, ActorControllerInfo, Level, CharacterClass,
    CharacterName, ActorName, IsRunning, WorldLocationDescriptor, TargetCategory]

  /** Create `who`'s actor on client `to`, then describe it with `kinds`. */
  function IntroduceBlock(to: ClientId, who: Player, kinds: seq<Kind>): (b: seq<Message>)
    ensures |b| == |kinds| + 1
    ensures b[0] == Message(to, Entity(SystemEntity), CreatePhysicalEntity(who.actorId, ClassId(who.classId), []))
    ensures forall k :: 1 <= k < |b| ==> b[k] == Message(to, Entity(who.actorId), kinds[k - 1])
  {
    [Message(to, Entity(SystemEntity), CreatePhysicalEntity(who.actorId, ClassId(who.classId), []))]
    + seq(|kinds|, k requires 0 <= k < |kinds| => Message(to, Entity(who.actorId), kinds[k]))
  }

  /** Every listed client has a player. */
  predicate AllHavePlayers(list: seq<MapChannelClient>) {
    forall i :: 0 <= i < |list| ==> list[i].player.Some?
  }

  // ---------------------------------------------------------------------------
  // Introduce one client to the players of a list
  // ---------------------------------------------------------------------------

  /** The reference trace: one 14-packet block per listed client, in list order, the client itself included. */
  function IntroduceToAll(list: seq<MapChannelClient>, who: Player): (t: seq<Message>)
    requires AllHavePlayers(list)
    ensures |t| == 14 * |list|
  {
    if |list| == 0 then []
    else
      var init := list[..|list| - 1];
      assert AllHavePlayers(init) by {
        forall i | 0 <= i < |init| ensures init[i].player.Some? { assert init[i] == list[i]; }
      }
      IntroduceToAll(init, who) + IntroduceBlock(list[|list| - 1].player.value.client, who, IntroduceToPeersKinds)
  }

  /**
   * CellIntroduceClientToPlayers: every listed client's player receives the
   * create of `mapClient`'s actor followed by 13 describe packets. The
   * self-check in the source comes after the sends, so the client itself is
   * told about itself when it is in the list.
   */
  method CellIntroduceClientToPlayers(mapClient: MapChannelClient, list: seq<MapChannelClient>) returns (sent: seq<Message>)
    requires mapClient.player.Some?
    requires AllHavePlayers(list)
    ensures |sent| == 14 * |list|
    ensures forall i :: 0 <= i < |list| ==>
      sent[14 * i .. 14 * i + 14] == IntroduceBlock(list[i].player.value.client, mapClient.player.value, IntroduceToPeersKinds)
  {
    var who := mapClient.player.value;
    sent := [];
    var i := 0;
    while i < |list|
      invariant 0 <= i <= |list|
      invariant AllHavePlayers(list[..i])
      invariant sent == IntroduceToAll(list[..i], who)
    {
      var tempPlayer := list[i].player.value;
      sent := sent + IntroduceBlock(tempPlayer.client, who, IntroduceToPeersKinds);
      assert list[..i + 1][..i] == list[..i];
      i := i + 1;
    }
    assert list[..i] == list;
    forall j | 0 <= j < |list|
      ensures sent[14 * j .. 14 * j + 14] == IntroduceBlock(list[j].player.value.client, who, IntroduceToPeersKinds)
    {
      IntroduceToAllBlocks(list, who, j);
    }
  }

  /** In the trace of CellIntroduceClientToPlayers, block i goes to the i-th listed client and starts with the create. */
  lemma {:induction false} IntroduceToAllBlocks(list: seq<MapChannelClient>, who: Player, i: int)
    requires AllHavePlayers(list) && 0 <= i < |list|
    ensures IntroduceToAll(list, who)[14 * i .. 14 * i + 14]
              == IntroduceBlock(list[i].player.value.client, who, IntroduceToPeersKinds)
    ensures IntroduceToAll(list, who)[14 * i]
              == Message(list[i].player.value.client, Entity(SystemEntity), CreatePhysicalEntity(who.actorId, ClassId(who.classId), []))
    decreases |list|
  {
    var init := list[..|list| - 1];
    assert AllHavePlayers(init) by {
      forall j | 0 <= j < |init| ensures init[j].player.Some? { assert init[j] == list[j]; }
    }
    var t := IntroduceToAll(list, who);
    assert t == IntroduceToAll(init, who) + IntroduceBlock(list[|list| - 1].player.value.client, who, IntroduceToPeersKinds);
    if i < |list| - 1 {
      IntroduceToAllBlocks(init, who, i);
      assert init[i] == list[i];
      assert t[14 * i .. 14 * i + 14] == IntroduceToAll(init, who)[14 * i .. 14 * i + 14];
    } else {
      assert t[14 * i .. 14 * i + 14] == t[|IntroduceToAll(init, who)|..];
    }
  }

  /** As written, a client in the list is sent the create of its own actor. */
  lemma IntroduceClientCreatesSelf(mapClient: MapChannelClient, list: seq<MapChannelClient>, i: int)
    requires mapClient.player.Some? && AllHavePlayers(list)
    requires 0 <= i < |list| && list[i] == mapClient
    ensures IntroduceToAll(list, mapClient.player.value)[14 * i] ==
      Message(mapClient.player.value.client, Entity(SystemEntity),
              CreatePhysicalEntity(mapClient.player.value.actorId, ClassId(mapClient.player.value.classId), []))
  {
    IntroduceToAllBlocks(list, mapClient.player.value, i);
  }

  // ---------------------------------------------------------------------------
  // Introduce the players of a list to one client
  // ---------------------------------------------------------------------------

  /** The list entries other than `mapClient` (the ones that get introduced), in order. */
  function Others(list: seq<MapChannelClient>, mapClient: MapChannelClient): (o: seq<MapChannelClient>)
    ensures |o| <= |list|
    ensures forall k :: 0 <= k < |o| ==> o[k] != mapClient && o[k] in list
  {
    if |list| == 0 then []
    else
      var init := list[..|list| - 1];
      var last := list[|list| - 1];
      Others(init, mapClient) + (if last == mapClient then [] else [last])
  }

  /** The reference trace: an 11-packet block for every other listed client, sent to `to`. */
  function IntroduceEach(others: seq<MapChannelClient>, to: ClientId): (t: seq<Message>)
    requires AllHavePlayers(others)
    ensures |t| == 11 * |others|
  {
    if |others| == 0 then []
    else
      var init := others[..|others| - 1];
      assert AllHavePlayers(init) by {
        forall i | 0 <= i < |init| ensures init[i].player.Some? { assert init[i] == others[i]; }
      }
      IntroduceEach(init, to) + IntroduceBlock(to, others[|others| - 1].player.value, IntroducePeersKinds)
  }

  /** The number of leading entries that have a player. */
  function PlayersBeforeGap(s: seq<MapChannelClient>): (k: nat)
    ensures k <= |s|
    ensures AllHavePlayers(s[..k])
    ensures k < |s| ==> s[k].player.None?
  {
    if |s| == 0 || s[0].player.None? then 0
    else
      var k := 1 + PlayersBeforeGap(s[1..]);
      assert forall j :: 1 <= j < k ==> s[..k][j] == s[1..][..k - 1][j - 1];
      k
  }

  /** Any prefix whose entries all have players and that ends at a gap (or the end) is the one PlayersBeforeGap measures. */
  lemma {:induction false} PlayersBeforeGapUnique(s: seq<MapChannelClient>, j: int)
    requires 0 <= j <= |s| && AllHavePlayers(s[..j])
    requires j < |s| ==> s[j].player.None?
    ensures PlayersBeforeGap(s) == j
    decreases j
  {
    if j > 0 {
      assert s[..j][0] == s[0];
      var rest := s[1..];
      var pre := rest[..j - 1];
      assert AllHavePlayers(pre) by {
        forall t | 0 <= t < j - 1 ensures pre[t].player.Some? {
          assert pre[t] == s[..j][t + 1];
        }
      }
      assert j - 1 < |rest| ==> rest[j - 1] == s[j];
      PlayersBeforeGapUnique(rest, j - 1);
    }
  }

  /**
   * The other clients CellIntroducePlayersToClient gets through before it
   * faults: none when the requesting client has no player, otherwise the
   * others up to the first one without a player.
   */
  function Introduced(list: seq<MapChannelClient>, mapClient: MapChannelClient): (o: seq<MapChannelClient>)
    ensures |o| <= |Others(list, mapClient)| && o == Others(list, mapClient)[..|o|]
    ensures AllHavePlayers(o)
    ensures mapClient.player.None? ==> o == []
  {
    if mapClient.player.None? then []
    else
      var others := Others(list, mapClient);
      others[..PlayersBeforeGap(others)]
  }

  /** The others found in a prefix of the list are a prefix of all the others. */
  lemma {:induction false} OthersOfPrefix(list: seq<MapChannelClient>, mapClient: MapChannelClient, i: int)
    requires 0 <= i <= |list|
    ensures |Others(list[..i], mapClient)| <= |Others(list, mapClient)|
    ensures Others(list, mapClient)[..|Others(list[..i], mapClient)|] == Others(list[..i], mapClient)
    decreases |list|
  {
    if i == |list| {
      assert list[..i] == list;
    } else {
      var init := list[..|list| - 1];
      assert init[..i] == list[..i];
      OthersOfPrefix(init, mapClient, i);
    }
  }

  /**
   * A scan that reaches an other entry while either player is missing has
   * introduced exactly the others before it, and some others remain.
   */
  lemma IntroducedAtFault(list: seq<MapChannelClient>, mapClient: MapChannelClient, i: int)
    requires 0 <= i < |list| && list[i] != mapClient
    requires mapClient.player.None? || list[i].player.None?
    requires mapClient.player.None? ==> Others(list[..i], mapClient) == []
    requires mapClient.player.Some? ==> AllHavePlayers(Others(list[..i], mapClient))
    ensures Introduced(list, mapClient) == Others(list[..i], mapClient)
    ensures |Introduced(list, mapClient)| < |Others(list, mapClient)|
  {
    var before := Others(list[..i], mapClient);
    OthersStep(list, mapClient, i);
    var after := Others(list[..i + 1], mapClient);
    OthersOfPrefix(list, mapClient, i + 1);
    var others := Others(list, mapClient);
    assert others[..|after|] == after;
    assert others[|before|] == after[|before|] == list[i];
    if mapClient.player.Some? {
      OthersOfPrefix(list, mapClient, i);
      PlayersBeforeGapUnique(others, |before|);
    }
  }

  /** A scan that never meets a missing player introduces every other entry. */
  lemma IntroducedAll(list: seq<MapChannelClient>, mapClient: MapChannelClient)
    requires mapClient.player.None? ==> Others(list, mapClient) == []
    requires mapClient.player.Some? ==> AllHavePlayers(Others(list, mapClient))
    ensures Introduced(list, mapClient) == Others(list, mapClient)
  {
    var others := Others(list, mapClient);
    if mapClient.player.Some? {
      assert others[..|others|] == others;
      PlayersBeforeGapUnique(others, |others|);
    }
  }

  /** One more list entry adds itself to the others unless it is `mapClient`. */
  lemma OthersStep(list: seq<MapChannelClient>, mapClient: MapChannelClient, i: int)
    requires 0 <= i < |list|
    ensures Others(list[..i + 1], mapClient)
      == Others(list[..i], mapClient) + (if list[i] == mapClient then [] else [list[i]])
  {
    assert list[..i + 1][..i] == list[..i];
  }

  /** Appending an other client with a player appends its block to the 11-packet trace. */
  lemma IntroduceEachStep(before: seq<MapChannelClient>, c: MapChannelClient, to: ClientId)
    requires AllHavePlayers(before) && c.player.Some?
    ensures AllHavePlayers(before + [c])
    ensures IntroduceEach(before + [c], to) == IntroduceEach(before, to) + IntroduceBlock(to, c.player.value, IntroducePeersKinds)
  {
    var after := before + [c];
    assert after[..|after| - 1] == before;
  }

  /** Every block of an 11-packet trace, at once. */
  lemma IntroduceEachAllBlocks(others: seq<MapChannelClient>, to: ClientId)
    requires AllHavePlayers(others)
    ensures forall j :: 0 <= j < |others| ==>
      IntroduceEach(others, to)[11 * j .. 11 * j + 11] == IntroduceBlock(to, others[j].player.value, IntroducePeersKinds)
  {
    forall j | 0 <= j < |others|
      ensures IntroduceEach(others, to)[11 * j .. 11 * j + 11] == IntroduceBlock(to, others[j].player.value, IntroducePeersKinds)
    {
      IntroduceEachBlocks(others, to, j);
    }
  }

  /**
   * CellIntroducePlayersToClient: `mapClient` receives, for every other listed
   * client, the create of that client's actor and 10 describe packets; its
   * own entry is skipped. The first other entry reached while either player
   * is missing dereferences null: `fault` reports it, and the blocks sent
   * before it stay sent.
   */
  method CellIntroducePlayersToClient(mapClient: MapChannelClient, list: seq<MapChannelClient>)
    returns (sent: seq<Message>, fault: bool)
    ensures fault <==> |Introduced(list, mapClient)| < |Others(list, mapClient)|
    ensures !fault ==> Introduced(list, mapClient) == Others(list, mapClient)
    ensures |sent| == 11 * |Introduced(list, mapClient)|
    ensures forall i :: 0 <= i < |Introduced(list, mapClient)| ==>
      sent[11 * i .. 11 * i + 11]
        == IntroduceBlock(mapClient.player.value.client, Introduced(list, mapClient)[i].player.value, IntroducePeersKinds)
    ensures AllHavePlayers(list) && DistinctActors(list) && mapClient in list ==>
      !fault && forall k :: 0 <= k < |sent| && sent[k].kind.CreatePhysicalEntity? ==> sent[k].kind.created != mapClient.player.value.actorId
  {
    sent := [];
    fault := false;
    var i := 0;
    ghost var seen: seq<MapChannelClient> := [];
    while i < |list| && !fault
      invariant 0 <= i <= |list|
      invariant seen == Others(list[..i], mapClient)
      invariant mapClient.player.None? ==> seen == [] && sent == []
      invariant mapClient.player.Some? ==>
        AllHavePlayers(seen) && sent == IntroduceEach(seen, mapClient.player.value.client)
      invariant fault ==> Introduced(list, mapClient) == seen && |seen| < |Others(list, mapClient)|
      decreases |list| - i, if fault then 0 else 1
    {
      var tempClient := list[i];
      OthersStep(list, mapClient, i);
      if tempClient == mapClient {
        i := i + 1;
      } else if mapClient.player.None? || tempClient.player.None? {
        IntroducedAtFault(list, mapClient, i);
        fault := true;
      } else {
        var to := mapClient.player.value.client;
        IntroduceEachStep(seen, tempClient, to);
        sent := sent + IntroduceBlock(to, tempClient.player.value, IntroducePeersKinds);
        seen := seen + [tempClient];
        i := i + 1;
      }
    }
    if !fault {
      assert list[..i] == list;
      IntroducedAll(list, mapClient);
    }
    if mapClient.player.Some? {
      IntroduceEachAllBlocks(Introduced(list, mapClient), mapClient.player.value.client);
    }
    if AllHavePlayers(list) && DistinctActors(list) && mapClient in list {
      assert AllHavePlayers(Others(list, mapClient));
      IntroducedAll(list, mapClient);
      forall k | 0 <= k < |sent| && sent[k].kind.CreatePhysicalEntity?
        ensures sent[k].kind.created != mapClient.player.value.actorId
      {
        NeverCreatesSelf(mapClient, list, k);
      }
    }
  }

  /** Block i of an 11-packet trace introduces the i-th client. */
  lemma {:induction false} IntroduceEachBlocks(others: seq<MapChannelClient>, to: ClientId, i: int)
    requires AllHavePlayers(others) && 0 <= i < |others|
    ensures IntroduceEach(others, to)[11 * i .. 11 * i + 11] == IntroduceBlock(to, others[i].player.value, IntroducePeersKinds)
    decreases |others|
  {
    var init := others[..|others| - 1];
    assert AllHavePlayers(init) by {
      forall j | 0 <= j < |init| ensures init[j].player.Some? { assert init[j] == others[j]; }
    }
    var t := IntroduceEach(others, to);
    assert t == IntroduceEach(init, to) + IntroduceBlock(to, others[|others| - 1].player.value, IntroducePeersKinds);
    if i < |others| - 1 {
      IntroduceEachBlocks(init, to, i);
      assert init[i] == others[i];
      assert t[11 * i .. 11 * i + 11] == IntroduceEach(init, to)[11 * i .. 11 * i + 11];
    } else {
      assert t[11 * i .. 11 * i + 11] == t[|IntroduceEach(init, to)|..];
    }
  }

  /** Distinct clients of a roster own distinct actors. */
  predicate DistinctActors(list: seq<MapChannelClient>) {
    forall i, j ::
      (0 <= i < |list| && 0 <= j < |list| && list[i].player.Some? && list[j].player.Some? && list[i] != list[j])
        ==> list[i].player.value.actorId != list[j].player.value.actorId
  }

  /** Every create sent by an 11-packet trace names the actor of one of the introduced clients. */
  lemma {:induction false} IntroduceEachCreates(others: seq<MapChannelClient>, to: ClientId, k: int)
    requires AllHavePlayers(others) && 0 <= k < |IntroduceEach(others, to)|
    requires IntroduceEach(others, to)[k].kind.CreatePhysicalEntity?
    ensures exists i :: 0 <= i < |others| && IntroduceEach(others, to)[k].kind.created == others[i].player.value.actorId
    decreases |others|
  {
    var init := others[..|others| - 1];
    var last := others[|others| - 1];
    assert AllHavePlayers(init) by {
      forall i | 0 <= i < |init| ensures init[i].player.Some? { assert init[i] == others[i]; }
    }
    var t := IntroduceEach(others, to);
    var head := IntroduceEach(init, to);
    assert t == head + IntroduceBlock(to, last.player.value, IntroducePeersKinds);
    if k < |head| {
      assert t[k] == head[k];
      IntroduceEachCreates(init, to, k);
      var i :| 0 <= i < |init| && head[k].kind.created == init[i].player.value.actorId;
      assert init[i] == others[i];
    } else {
      var b := IntroduceBlock(to, last.player.value, IntroducePeersKinds);
      assert t[k] == b[k - |head|];
      assert t[k].kind.created == others[|others| - 1].player.value.actorId;
    }
  }

  /** With distinct actors, no create in the 11-packet trace for the others names the client's own actor. */
  lemma NeverCreatesSelf(mapClient: MapChannelClient, list: seq<MapChannelClient>, k: int)
    requires mapClient.player.Some? && mapClient in list
    requires AllHavePlayers(list) && DistinctActors(list)
    requires 0 <= k < |IntroduceEach(Others(list, mapClient), mapClient.player.value.client)|
    requires IntroduceEach(Others(list, mapClient), mapClient.player.value.client)[k].kind.CreatePhysicalEntity?
    ensures IntroduceEach(Others(list, mapClient), mapClient.player.value.client)[k].kind.created != mapClient.player.value.actorId
  {
    var others := Others(list, mapClient);
    var to := mapClient.player.value.client;
    assert AllHavePlayers(others) by {
      forall j | 0 <= j < |others| ensures others[j].player.Some? {
        assert others[j] in list;
      }
    }
    IntroduceEachCreates(others, to, k);
    var i :| 0 <= i < |others| && IntroduceEach(others, to)[k].kind.created == others[i].player.value.actorId;
    var o := others[i];
    assert o != mapClient && o in list;
    var a :| 0 <= a < |list| && list[a] == o;
    var b :| 0 <= b < |list| && list[b] == mapClient;
    assert o.player.value.actorId != mapClient.player.value.actorId;
  }

  // ---------------------------------------------------------------------------
  // Discard
  // ---------------------------------------------------------------------------

  /** Number of the first roster entries whose player is not `p` (a null player counts). */
  function CountPeers(roster: seq<MapChannelClient>, p: Player): (n: nat)
    ensures n <= |roster|
  {
    if |roster| == 0 then 0
    else CountPeers(roster[..|roster| - 1], p) + (if roster[|roster| - 1].player == Some(p) then 0 else 1)
  }

  /** The two events CellDiscardClientToPlayers emits per peer. */
  function DiscardPair(leaving: MapChannelClient, p: Player): seq<Event> {
    [Send(Message(leaving.client, Entity(SystemEntity), DestroyPhysicalEntity(p.actorId))), FreeEntity(p.actorId)]
  }

  /** The entries a discard loop visits: the first `playerCount`, none when it is negative. */
  function Scanned(roster: seq<MapChannelClient>, playerCount: int): seq<MapChannelClient>
    requires playerCount <= |roster|
  {
    if playerCount < 0 then [] else roster[..playerCount]
  }

  /**
   * CellDiscardClientToPlayers, as written: for each of the first
   * `playerCount` entries whose player is not the leaving one, the destroy of
   * the leaving actor is sent to the LEAVING client and its entity id is
   * freed again. Peers are never told. A leaving client without a player
   * only gets past entries without one too: the first entry with a player
   * dereferences the missing player, which `fault` reports, and nothing has
   * been sent by then.
   */
  method CellDiscardClientToPlayers(roster: seq<MapChannelClient>, leaving: MapChannelClient, playerCount: int)
    returns (events: seq<Event>, fault: bool)
    requires playerCount <= |roster|
    ensures leaving.player.Some? ==>
      && !fault
      && |events| == 2 * CountPeers(Scanned(roster, playerCount), leaving.player.value)
      && forall k :: 0 <= k < |events| ==> events[k] == DiscardPair(leaving, leaving.player.value)[k % 2]
    ensures leaving.player.None? ==>
      && events == []
      && (fault <==> exists i :: 0 <= i < |Scanned(roster, playerCount)| && Scanned(roster, playerCount)[i].player.Some?)
  {
    events := [];
    fault := false;
    var n := if playerCount < 0 then 0 else playerCount;
    assert Scanned(roster, playerCount) == roster[..n];
    var i := 0;
    while i < n
      invariant 0 <= i <= n
      invariant !fault
      invariant leaving.player.Some? ==>
        && |events| == 2 * CountPeers(roster[..i], leaving.player.value)
        && forall k :: 0 <= k < |events| ==> events[k] == DiscardPair(leaving, leaving.player.value)[k % 2]
      invariant leaving.player.None? ==> events == [] && forall j :: 0 <= j < i ==> roster[j].player.None?
    {
      assert roster[..i + 1][..i] == roster[..i];
      if roster[i].player != leaving.player {
        if leaving.player.None? {
          fault := true;
          assert roster[..n][i].player.Some?;
          return;
        }
        events := events + DiscardPair(leaving, leaving.player.value);
      }
      i := i + 1;
    }
  }

  /** Actor ids of the first roster entries that have a player and another client entity id. */
  function RemainingActors(roster: seq<MapChannelClient>, clientEntityId: int): (ids: seq<int>)
    ensures |ids| <= |roster|
  {
    if |roster| == 0 then []
    else
      var last := roster[|roster| - 1];
      RemainingActors(roster[..|roster| - 1], clientEntityId)
      + (if last.player.Some? && last.clientEntityId != clientEntityId then [last.player.value.actorId] else [])
  }

  /**
   * CellDiscardPlayersToClient: the leaving client receives one destroy per
   * entry among the first `playerCount` that has a player and is not itself,
   * in roster order.
   */
  method CellDiscardPlayersToClient(roster: seq<MapChannelClient>, client: MapChannelClient, playerCount: int)
    returns (sent: seq<Message>)
    requires playerCount <= |roster|
    ensures var ids := RemainingActors(Scanned(roster, playerCount), client.clientEntityId);
      && |sent| == |ids|
      && forall k :: 0 <= k < |sent| ==>
           sent[k] == Message(client.client, Entity(SystemEntity), DestroyPhysicalEntity(ids[k]))
  {
    sent := [];
    var n := if playerCount < 0 then 0 else playerCount;
    assert Scanned(roster, playerCount) == roster[..n];
    var i := 0;
    while i < n
      invariant 0 <= i <= n
      invariant |sent| == |RemainingActors(roster[..i], client.clientEntityId)|
      invariant forall k :: 0 <= k < |sent| ==>
        sent[k] == Message(client.client, Entity(SystemEntity), DestroyPhysicalEntity(RemainingActors(roster[..i], client.clientEntityId)[k]))
    {
      assert roster[..i + 1][..i] == roster[..i];
      if roster[i].player.Some? && roster[i].clientEntityId != client.clientEntityId {
        sent := sent + [Message(client.client, Entity(SystemEntity), DestroyPhysicalEntity(roster[i].player.value.actorId))];
      }
      i := i + 1;
    }
  }

  /** Every actor destroyed on the leaving client belongs to an entry with a player and another client entity id. */
  lemma {:induction false} RemainingActorsAreOthers(roster: seq<MapChannelClient>, clientEntityId: int, k: int)
    requires 0 <= k < |RemainingActors(roster, clientEntityId)|
    ensures exists i :: 0 <= i < |roster| && roster[i].player.Some? && roster[i].clientEntityId != clientEntityId
                        && roster[i].player.value.actorId == RemainingActors(roster, clientEntityId)[k]
    decreases |roster|
  {
    var init := roster[..|roster| - 1];
    var head := RemainingActors(init, clientEntityId);
    if k < |head| {
      RemainingActorsAreOthers(init, clientEntityId, k);
      var i :| 0 <= i < |init| && init[i].player.Some? && init[i].clientEntityId != clientEntityId
               && init[i].player.value.actorId == head[k];
      assert roster[i] == init[i];
    } else {
      assert roster[|roster| - 1].player.value.actorId == RemainingActors(roster, clientEntityId)[k];
    }
  }

  /**
   * Discard symmetry for a roster where each entry has a player and the
   * leaving client occurs exactly once: the leaving client is sent one
   * destroy per other entry by each discard routine (n - 1 in all).
   */
  lemma {:induction false} DiscardCountsAgree(roster: seq<MapChannelClient>, leaving: MapChannelClient)
    requires leaving.player.Some? && AllHavePlayers(roster)
    requires forall i :: 0 <= i < |roster| ==> (roster[i].player == leaving.player <==> roster[i] == leaving)
    requires forall i :: 0 <= i < |roster| ==> (roster[i].clientEntityId == leaving.clientEntityId <==> roster[i] == leaving)
    ensures CountPeers(roster, leaving.player.value) == |RemainingActors(roster, leaving.clientEntityId)|
    decreases |roster|
  {
    if |roster| > 0 {
      var init := roster[..|roster| - 1];
      assert forall i :: 0 <= i < |init| ==> init[i] == roster[i];
      DiscardCountsAgree(init, leaving);
    }
  }
}
