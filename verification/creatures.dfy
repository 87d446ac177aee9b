/**
 * The creature manager: loading creature types from their table rows,
 * instantiating a creature from a loaded template, creating creatures on
 * clients, and the conversation status an NPC shows a player.
 *
 * Database tables and the spawn-pool manager are inputs: the type rows, the
 * stats row of a creature (or its absence), and the list of spawn pools
 * whose alive count was increased.
 */
module Creatures {

  import opened Wrappers
  import opened Messages

  // ---------------------------------------------------------------------------
  // Creature types
  // ---------------------------------------------------------------------------

  /** The vendor capability block; a freshly constructed one is an input to the loader. */
  datatype VendorData = VendorData(vendorPackageId: int)

  /** A shared creature template with its optional capability blocks. */
  datatype CreatureType = CreatureType(dbId: int, classId: int, hasLoot: bool, hasNpc: bool, vendor: Option<VendorData>)

  /** One row of the creature-type table; the flags are integers, positive meaning set. */
  datatype CreatureTypeRow = CreatureTypeRow(dbId: int, classId: int, isHarvestable: int, isNpc: int, isVendor: int)

  /** The type built from one row: each capability block exists exactly when its flag is positive. */
  function TypeFromRow(row: CreatureTypeRow, freshVendor: VendorData): (t: CreatureType)
    ensures t.dbId == row.dbId && t.classId == row.classId
    ensures t.hasLoot <==> row.isHarvestable > 0
    ensures t.hasNpc <==> row.isNpc > 0
    ensures t.vendor.Some? <==> row.isVendor > 0
  {
    CreatureType(row.dbId, row.classId, row.isHarvestable > 0, row.isNpc > 0,
                 if row.isVendor > 0 then Some(freshVendor) else None)
  }

  /** The reference load: the rows added one after another, a later row replacing an earlier one. */
  function AddRows(types: map<int, CreatureType>, rows: seq<CreatureTypeRow>, freshVendor: VendorData): map<int, CreatureType>
  {
    if |rows| == 0 then types
    else AddRows(types, rows[..|rows| - 1], freshVendor)[rows[|rows| - 1].dbId := TypeFromRow(rows[|rows| - 1], freshVendor)]
  }

  /** The ids of some rows. */
  function RowIds(rows: seq<CreatureTypeRow>): set<int> {
    set i | 0 <= i < |rows| :: rows[i].dbId
  }

  /** No row repeats an id already loaded or used by another row. */
  predicate FreshRows(types: map<int, CreatureType>, rows: seq<CreatureTypeRow>) {
    (forall i :: 0 <= i < |rows| ==> rows[i].dbId !in types)
    && (forall i, j :: 0 <= i < j < |rows| ==> rows[i].dbId != rows[j].dbId)
  }

  lemma {:induction false} AddRowsKeys(types: map<int, CreatureType>, rows: seq<CreatureTypeRow>, freshVendor: VendorData)
    ensures AddRows(types, rows, freshVendor).Keys == types.Keys + RowIds(rows)
    decreases |rows|
  {
    if |rows| > 0 {
      var init := rows[..|rows| - 1];
      AddRowsKeys(types, init, freshVendor);
      assert RowIds(rows) == RowIds(init) + {rows[|rows| - 1].dbId} by {
        forall id | id in RowIds(rows) ensures id in RowIds(init) + {rows[|rows| - 1].dbId} {
          var i :| 0 <= i < |rows| && rows[i].dbId == id;
          if i < |rows| - 1 { assert init[i] == rows[i]; }
        }
        forall id | id in RowIds(init) ensures id in RowIds(rows) {
          var i :| 0 <= i < |init| && init[i].dbId == id;
          assert rows[i] == init[i];
        }
      }
    }
  }

  /**
   * When the rows are fresh, every row is loaded as the type built from it and
   * every previously loaded type is kept.
   */
  lemma {:induction false} AddRowsMapsEachRow(types: map<int, CreatureType>, rows: seq<CreatureTypeRow>, freshVendor: VendorData)
    requires FreshRows(types, rows)
    ensures forall i :: 0 <= i < |rows| ==>
      rows[i].dbId in AddRows(types, rows, freshVendor) && AddRows(types, rows, freshVendor)[rows[i].dbId] == TypeFromRow(rows[i], freshVendor)
    ensures forall id :: id in types ==> id in AddRows(types, rows, freshVendor) && AddRows(types, rows, freshVendor)[id] == types[id]
    decreases |rows|
  {
    if |rows| > 0 {
      var init := rows[..|rows| - 1];
      var last := rows[|rows| - 1];
      assert FreshRows(types, init) by {
        forall i | 0 <= i < |init| ensures init[i] == rows[i] { }
      }
      AddRowsMapsEachRow(types, init, freshVendor);
      forall i | 0 <= i < |rows|
        ensures AddRows(types, rows, freshVendor)[rows[i].dbId] == TypeFromRow(rows[i], freshVendor)
      {
        if i < |rows| - 1 {
          assert init[i] == rows[i];
          assert rows[i].dbId != last.dbId;
        }
      }
    }
  }

  /** The loaded types, and the index of the row whose id was already present, if any. */
  datatype TypeLoad = TypeLoad(types: map<int, CreatureType>, duplicateAt: Option<int>)

  /**
   * CreatureTypesInit: adds one type per row. Adding an id that is already
   * present throws, which ends the load with the types added so far.
   */
  method CreatureTypesInit(loaded: map<int, CreatureType>, rows: seq<CreatureTypeRow>, freshVendor: VendorData)
    returns (r: TypeLoad)
    ensures r.duplicateAt.None? <==> FreshRows(loaded, rows)
    ensures r.duplicateAt.None? ==> r.types == AddRows(loaded, rows, freshVendor)
    ensures r.duplicateAt.Some? ==>
      var k := r.duplicateAt.value;
      0 <= k < |rows| && FreshRows(loaded, rows[..k])
      && r.types == AddRows(loaded, rows[..k], freshVendor) && rows[k].dbId in r.types
  {
    var types := loaded;
    var i := 0;
    while i < |rows|
      invariant 0 <= i <= |rows|
      invariant FreshRows(loaded, rows[..i])
      invariant types == AddRows(loaded, rows[..i], freshVendor)
    {
      AddRowsKeys(loaded, rows[..i], freshVendor);
      if rows[i].dbId in types {
        return TypeLoad(types, Some(i));
      }
      assert rows[..i + 1][..i] == rows[..i];
      assert FreshRows(loaded, rows[..i + 1]) by {
        forall j | 0 <= j < i ensures rows[j].dbId != rows[i].dbId {
          assert rows[..i][j] == rows[j];
          assert rows[j].dbId in RowIds(rows[..i]);
        }
        assert rows[i].dbId !in loaded;
      }
      types := types[rows[i].dbId := TypeFromRow(rows[i], freshVendor)];
      i := i + 1;
    }
    assert rows[..i] == rows;
    return TypeLoad(types, None);
  }

  // ---------------------------------------------------------------------------
  // Creature instantiation
  // ---------------------------------------------------------------------------

  datatype AttributeKind = Body | Mind | Spirit | Health | Chi | Power | Aware | Armor | Speed | Regen

  /** An actor attribute: current, current maximum, normal maximum, regeneration rate and refresh period. */
  datatype ActorAttribute = ActorAttribute(current: int, currentMax: int, normalMax: int, regenRate: int, refreshPeriod: int)

  /** The stats row of a creature. */
  datatype CreatureStats = CreatureStats(body: int, mind: int, spirit: int, health: int, armor: int)

  /** A loaded creature template; its appearance is slot -> class id. */
  datatype CreatureTemplate = CreatureTemplate(
    dbId: int, creatureType: CreatureType, appearance: map<int, int>,
    faction: int, level: int, maxHitPoints: int, nameId: int)

  datatype Actor = Actor(entityId: int, attributes: map<AttributeKind, ActorAttribute>)

  /** A live creature; its spawn pool is named by id. */
  datatype Creature = Creature(
    actor: Actor, appearance: map<int, int>, creatureType: CreatureType, dbId: int,
    faction: int, level: int, maxHitPoints: int, nameId: int, spawnPool: Option<int>)

  /** The five attribute kinds that take their value from the stats row. */
  predicate FromStats(k: AttributeKind) {
    k == Body || k == Mind || k == Spirit || k == Health || k == Armor
  }

  /** The stats value of a stats-driven kind. */
  function StatValue(stats: CreatureStats, k: AttributeKind): int
    requires FromStats(k)
  {
    match k
    case Body => stats.body
    case Mind => stats.mind
    case Spirit => stats.spirit
    case Health => stats.health
    case Armor => stats.armor
  }

  /** The attribute table of a creature with a stats row. */
  function CreatureAttributes(stats: CreatureStats): map<AttributeKind, ActorAttribute>
  {
    map[
      Body := ActorAttribute(stats.body, stats.body, stats.body, 5, 1000),
      Mind := ActorAttribute(stats.mind, stats.mind, stats.mind, 5, 1000),
      Spirit := ActorAttribute(stats.spirit, stats.spirit, stats.spirit, 5, 1000),
      Health := ActorAttribute(stats.health, stats.health, stats.health, 5, 1000),
      Chi := ActorAttribute(0, 0, 0, 0, 0),
      Power := ActorAttribute(0, 0, 0, 0, 0),
      Aware := ActorAttribute(0, 0, 0, 0, 0),
      Armor := ActorAttribute(stats.armor, stats.armor, stats.armor, 5, 1000),
      Speed := ActorAttribute(1, 1, 1, 0, 0),
      Regen := ActorAttribute(0, 0, 0, 0, 0)]
  }

  /**
   * The attribute table has all ten kinds, each full; the stats-driven ones
   * regenerate (5, 1000), speed is 1 and the rest are 0.
   */
  lemma CreatureAttributesShape(stats: CreatureStats)
    ensures var a := CreatureAttributes(stats);
      && (forall k: AttributeKind :: k in a && a[k].current == a[k].currentMax == a[k].normalMax)
      && (forall k: AttributeKind :: FromStats(k) ==>
            a[k] == ActorAttribute(StatValue(stats, k), StatValue(stats, k), StatValue(stats, k), 5, 1000))
      && a[Speed] == ActorAttribute(1, 1, 1, 0, 0)
      && (forall k: AttributeKind :: !FromStats(k) && k != Speed ==> a[k] == ActorAttribute(0, 0, 0, 0, 0))
  {
    var a := CreatureAttributes(stats);
    forall k: AttributeKind ensures k in a && a[k].current == a[k].currentMax == a[k].normalMax {
      match k
      case Body => case Mind => case Spirit => case Health => case Chi =>
      case Power => case Aware => case Armor => case Speed => case Regen =>
    }
  }

  /** The created creature (None when the id is not loaded) and the spawn pools whose alive count went up. */
  datatype CreateResult = CreateResult(creature: Option<Creature>, poolIncrements: seq<int>)

  /**
   * CreateCreature: absent for an id that is not loaded, with no spawn-pool
   * change. Otherwise a copy of the template's fields with a fresh actor; the
   * attribute table has all ten kinds, each full (current = current maximum =
   * normal maximum), when a stats row exists and is empty when not; and the
   * given spawn pool, if any, has its alive count increased exactly once.
   */
  function CreateCreature(loaded: map<int, CreatureTemplate>, dbId: int, stats: Option<CreatureStats>,
                          spawnPool: Option<int>, freshActorId: int): (r: CreateResult)
    ensures dbId !in loaded ==> r.creature.None? && r.poolIncrements == []
    ensures dbId in loaded ==>
      var t := loaded[dbId];
      && r.creature.Some?
      && var c := r.creature.value;
      && c.appearance == t.appearance && c.creatureType == t.creatureType && c.dbId == t.dbId
      && c.faction == t.faction && c.level == t.level && c.maxHitPoints == t.maxHitPoints && c.nameId == t.nameId
      && c.spawnPool == spawnPool && c.actor.entityId == freshActorId
      && r.poolIncrements == (if spawnPool.Some? then [spawnPool.value] else [])
    ensures r.creature.Some? && stats.None? ==> r.creature.value.actor.attributes == map[]
    ensures r.creature.Some? && stats.Some? ==>
      var a := r.creature.value.actor.attributes;
      && (forall k: AttributeKind :: k in a && a[k].current == a[k].currentMax == a[k].normalMax)
      && (forall k: AttributeKind :: FromStats(k) ==> a[k] == ActorAttribute(StatValue(stats.value, k), StatValue(stats.value, k), StatValue(stats.value, k), 5, 1000))
      && a[Speed] == ActorAttribute(1, 1, 1, 0, 0)
      && (forall k: AttributeKind :: !FromStats(k) && k != Speed ==> a[k] == ActorAttribute(0, 0, 0, 0, 0))
  {
    if dbId !in loaded then CreateResult(None, [])
    else
      var t := loaded[dbId];
      var attributes := if stats.Some? then CreatureAttributesShape(stats.value); CreatureAttributes(stats.value) else map[];
      var c := Creature(Actor(freshActorId, attributes), t.appearance, t.creatureType, t.dbId,
                        t.faction, t.level, t.maxHitPoints, t.nameId, spawnPool);
      CreateResult(Some(c), if spawnPool.Some? then [spawnPool.value] else [])
  }

  // ---------------------------------------------------------------------------
  // Creating creatures on clients
  // ---------------------------------------------------------------------------

  /** The vendor package id of the hard-coded vending status sent to NPC creatures on create. */
  const CreateVendorPackage: int := 106

  /** What a send to a map client leaves behind: the packets sent, and whether it faulted on a null player. */
  datatype Delivery = Delivery(sent: seq<Message>, fault: bool)

  /** The packets that introduce a creature to a resolved recipient. */
  function CreatePackets(to: ClientId, c: Creature): seq<Message> {
    var entityData := [WorldLocation, IsTargetable(true), CreatureInfo(c.nameId), Appearance, LevelData(c.level),
                       AttributeData, TargetCategoryData(c.faction), UpdateAttributes, IsRunningData(false)];
    [Message(to, Entity(SystemEntity), CreatePhysicalEntity(c.actor.entityId, ClassId(c.creatureType.classId), entityData))]
    + (if c.creatureType.hasNpc
       then [Message(to, Entity(c.actor.entityId), NpcConversationStatus(Vending, Some([CreateVendorPackage])))]
       else [])
  }

  /**
   * CreateCreatureOnClient: `recipient` is the map client's player connection,
   * None for a null player. Nothing for a null creature. A live creature and a
   * null player fault before anything is sent. Otherwise one create of the
   * creature's actor (with its type's class id) whose entity data is, in this
   * order, world location, targetable, creature info, appearance, level,
   * attributes, target category, attribute update and not-running; then, for
   * an NPC type, a vending conversation status on the actor.
   */
  function CreateCreatureOnClient(recipient: Option<ClientId>, creature: Option<Creature>): (r: Delivery)
    ensures creature.None? ==> r == Delivery([], false)
    ensures creature.Some? && recipient.None? ==> r == Delivery([], true)
    ensures creature.Some? && recipient.Some? ==>
      var c := creature.value;
      var to := recipient.value;
      var sent := r.sent;
      && !r.fault
      && |sent| == (if c.creatureType.hasNpc then 2 else 1)
      && sent[0].to == to && sent[0].addr == Entity(SystemEntity) && sent[0].kind.CreatePhysicalEntity?
      && sent[0].kind.created == c.actor.entityId && sent[0].kind.cls == ClassId(c.creatureType.classId)
      && |sent[0].kind.data| == 9
      && sent[0].kind.data[0].WorldLocation? && sent[0].kind.data[1] == IsTargetable(true)
      && sent[0].kind.data[2] == CreatureInfo(c.nameId) && sent[0].kind.data[3].Appearance?
      && sent[0].kind.data[4] == LevelData(c.level) && sent[0].kind.data[5].AttributeData?
      && sent[0].kind.data[6] == TargetCategoryData(c.faction) && sent[0].kind.data[7].UpdateAttributes?
      && sent[0].kind.data[8] == IsRunningData(false)
      && (c.creatureType.hasNpc ==>
            sent[1] == Message(to, Entity(c.actor.entityId), NpcConversationStatus(Vending, Some([CreateVendorPackage]))))
  {
    if creature.None? then Delivery([], false)
    else if recipient.None? then Delivery([], true)
    else Delivery(CreatePackets(recipient.value, creature.value), false)
  }

  /** The (recipient, created entity) pairs of the create packets in a trace, in order. */
  function Creates(sent: seq<Message>): seq<(ClientId, int)> {
    if |sent| == 0 then []
    else
      var m := sent[|sent| - 1];
      Creates(sent[..|sent| - 1]) + (if m.kind.CreatePhysicalEntity? then [(m.to, m.kind.created)] else [])
  }

  lemma {:induction false} CreatesAppend(a: seq<Message>, b: seq<Message>)
    ensures Creates(a + b) == Creates(a) + Creates(b)
    decreases |b|
  {
    if |b| == 0 {
      assert a + b == a;
    } else {
      var b' := b[..|b| - 1];
      assert (a + b)[..|a + b| - 1] == a + b';
      assert (a + b)[|a + b| - 1] == b[|b| - 1];
      CreatesAppend(a, b');
    }
  }

  /** CreateCreatureOnClient holds exactly one create, of the creature's actor on the recipient, or none when it sends nothing. */
  lemma CreatesOfCreateOnClient(recipient: Option<ClientId>, creature: Option<Creature>)
    ensures Creates(CreateCreatureOnClient(recipient, creature).sent)
            == if creature.Some? && recipient.Some? then [(recipient.value, creature.value.actor.entityId)] else []
  {
    var s := CreateCreatureOnClient(recipient, creature).sent;
    if creature.Some? && recipient.Some? {
      var c := creature.value;
      assert Creates(s[..1]) == [(recipient.value, c.actor.entityId)] by {
        assert s[..1][..0] == [];
        assert Creates(s[..1][..0]) == [];
      }
      if c.creatureType.hasNpc {
        assert s[..|s| - 1] == s[..1];
        assert !s[1].kind.CreatePhysicalEntity?;
      } else {
        assert s == s[..1];
      }
    }
  }

  /** Sends after a fault do not happen: the exception leaves the loop with what was sent so far. */
  function Then(before: Delivery, next: Delivery): Delivery {
    if before.fault then before else Delivery(before.sent + next.sent, next.fault)
  }

  /**
   * The reference run of CellIntroduceCreatureToClients: one
   * CreateCreatureOnClient per listed client's player, in list order, up to
   * the first one that faults.
   */
  function IntroduceCreatureTo(recipients: seq<Option<ClientId>>, creature: Option<Creature>): Delivery {
    if |recipients| == 0 then Delivery([], false)
    else Then(IntroduceCreatureTo(recipients[..|recipients| - 1], creature),
              CreateCreatureOnClient(recipients[|recipients| - 1], creature))
  }

  /** Once the run over a prefix has faulted, the rest of the list adds nothing. */
  lemma {:induction false} IntroduceCreatureToStops(recipients: seq<Option<ClientId>>, creature: Option<Creature>, i: int)
    requires 0 <= i <= |recipients| && IntroduceCreatureTo(recipients[..i], creature).fault
    ensures IntroduceCreatureTo(recipients, creature) == IntroduceCreatureTo(recipients[..i], creature)
    decreases |recipients|
  {
    if i < |recipients| {
      var init := recipients[..|recipients| - 1];
      assert init[..i] == recipients[..i];
      IntroduceCreatureToStops(init, creature, i);
    } else {
      assert recipients[..i] == recipients;
    }
  }

  /**
   * CellIntroduceCreatureToClients: the creature is created on every listed
   * client in turn; a live creature faults at the first client without a
   * player, after the clients before it got theirs.
   */
  method CellIntroduceCreatureToClients(creature: Option<Creature>, recipients: seq<Option<ClientId>>)
    returns (sent: seq<Message>, fault: bool)
    ensures Delivery(sent, fault) == IntroduceCreatureTo(recipients, creature)
    ensures creature.None? ==> sent == [] && !fault
    ensures creature.Some? ==> (fault <==> exists j :: 0 <= j < |recipients| && recipients[j].None?)
    ensures creature.Some? ==>
      && |Creates(sent)| <= |recipients|
      && (fault ==> |Creates(sent)| < |recipients| && recipients[|Creates(sent)|].None?)
      && (!fault ==> |Creates(sent)| == |recipients|)
      && forall k :: 0 <= k < |Creates(sent)| ==>
           recipients[k] == Some(Creates(sent)[k].0) && Creates(sent)[k].1 == creature.value.actor.entityId
  {
    sent, fault := [], false;
    var i := 0;
    while i < |recipients| && !fault
      invariant 0 <= i <= |recipients|
      invariant Delivery(sent, fault) == IntroduceCreatureTo(recipients[..i], creature)
      decreases |recipients| - i
    {
      assert recipients[..i + 1][..i] == recipients[..i];
      var d := CreateCreatureOnClient(recipients[i], creature);
      sent, fault := sent + d.sent, d.fault;
      i := i + 1;
    }
    if fault {
      IntroduceCreatureToStops(recipients, creature, i);
    } else {
      assert recipients[..i] == recipients;
    }
    if creature.None? {
      IntroduceNullCreature(recipients);
    } else {
      IntroduceCreatureToCreates(recipients, creature.value);
    }
  }

  /** A null creature sends nothing and never faults. */
  lemma {:induction false} IntroduceNullCreature(recipients: seq<Option<ClientId>>)
    ensures IntroduceCreatureTo(recipients, None) == Delivery([], false)
    decreases |recipients|
  {
    if |recipients| > 0 {
      IntroduceNullCreature(recipients[..|recipients| - 1]);
    }
  }

  /**
   * The shape of an introduction of a live creature `c` to `recipients`: a
   * fault exactly when some listed client has no player; the creates are one
   * per client, in list order, each of the creature's actor, up to the first
   * client without a player, or all of them when nothing faulted.
   */
  predicate IntroducedUpToFault(recipients: seq<Option<ClientId>>, c: Creature, d: Delivery) {
    && (d.fault <==> exists j :: 0 <= j < |recipients| && recipients[j].None?)
    && |Creates(d.sent)| <= |recipients|
    && (d.fault ==> |Creates(d.sent)| < |recipients| && recipients[|Creates(d.sent)|].None?)
    && (!d.fault ==> |Creates(d.sent)| == |recipients|)
    && forall k :: 0 <= k < |Creates(d.sent)| ==>
         recipients[k] == Some(Creates(d.sent)[k].0) && Creates(d.sent)[k].1 == c.actor.entityId
  }

  /** One more client keeps the shape: a fault before it keeps the run, otherwise its introduction is appended. */
  lemma IntroducedUpToFaultStep(init: seq<Option<ClientId>>, last: Option<ClientId>, c: Creature, d0: Delivery)
    requires IntroducedUpToFault(init, c, d0)
    ensures IntroducedUpToFault(init + [last], c, Then(d0, CreateCreatureOnClient(last, Some(c))))
  {
    if d0.fault {
      var j :| 0 <= j < |init| && init[j].None?;
      assert (init + [last])[j].None?;
    } else {
      var next := CreateCreatureOnClient(last, Some(c));
      CreatesAppend(d0.sent, next.sent);
      CreatesOfCreateOnClient(last, Some(c));
      if last.Some? {
        ResolvedStep(init, last.value, c, Creates(d0.sent));
      } else {
        assert (init + [last])[|init|].None?;
      }
    }
  }

  /** After a run without a fault, a client with a player puts its create last and leaves no client without one. */
  lemma ResolvedStep(init: seq<Option<ClientId>>, to: ClientId, c: Creature, created0: seq<(ClientId, int)>)
    requires |created0| == |init|
    requires forall k :: 0 <= k < |created0| ==> init[k] == Some(created0[k].0) && created0[k].1 == c.actor.entityId
    ensures var recipients, created := init + [Some(to)], created0 + [(to, c.actor.entityId)];
      && (forall j :: 0 <= j < |recipients| ==> recipients[j].Some?)
      && forall k :: 0 <= k < |created| ==> recipients[k] == Some(created[k].0) && created[k].1 == c.actor.entityId
  {
    var recipients, created := init + [Some(to)], created0 + [(to, c.actor.entityId)];
    forall k | 0 <= k < |created|
      ensures recipients[k] == Some(created[k].0) && created[k].1 == c.actor.entityId
    {
      if k < |init| { assert created[k] == created0[k]; }
    }
  }

  /** The reference run of a live creature has the shape IntroducedUpToFault. */
  lemma {:induction false} IntroduceCreatureToCreates(recipients: seq<Option<ClientId>>, c: Creature)
    ensures IntroducedUpToFault(recipients, c, IntroduceCreatureTo(recipients, Some(c)))
    decreases |recipients|
  {
    if |recipients| > 0 {
      var init := recipients[..|recipients| - 1];
      var last := recipients[|recipients| - 1];
      IntroduceCreatureToCreates(init, c);
      IntroducedUpToFaultStep(init, last, c, IntroduceCreatureTo(init, Some(c)));
      assert init + [last] == recipients;
    }
  }

  /**
   * The reference run of CellIntroduceCreaturesToClient: one
   * CreateCreatureOnClient per listed creature, in list order, up to the
   * first one that faults.
   */
  function IntroduceCreaturesTo(recipient: Option<ClientId>, creatures: seq<Option<Creature>>): Delivery {
    if |creatures| == 0 then Delivery([], false)
    else Then(IntroduceCreaturesTo(recipient, creatures[..|creatures| - 1]),
              CreateCreatureOnClient(recipient, creatures[|creatures| - 1]))
  }

  /** Once the run over a prefix has faulted, the rest of the list adds nothing. */
  lemma {:induction false} IntroduceCreaturesToStops(recipient: Option<ClientId>, creatures: seq<Option<Creature>>, i: int)
    requires 0 <= i <= |creatures| && IntroduceCreaturesTo(recipient, creatures[..i]).fault
    ensures IntroduceCreaturesTo(recipient, creatures) == IntroduceCreaturesTo(recipient, creatures[..i])
    decreases |creatures|
  {
    if i < |creatures| {
      var init := creatures[..|creatures| - 1];
      assert init[..i] == creatures[..i];
      IntroduceCreaturesToStops(recipient, init, i);
    } else {
      assert creatures[..i] == creatures;
    }
  }

  /**
   * CellIntroduceCreaturesToClient: every listed creature is created on the
   * one client in turn; a client without a player faults at the first live
   * creature, having sent nothing.
   */
  method CellIntroduceCreaturesToClient(recipient: Option<ClientId>, creatures: seq<Option<Creature>>)
    returns (sent: seq<Message>, fault: bool)
    ensures Delivery(sent, fault) == IntroduceCreaturesTo(recipient, creatures)
    ensures recipient.None? ==> sent == [] && (fault <==> |LiveActorIds(creatures)| > 0)
    ensures recipient.Some? ==>
      && !fault
      && |Creates(sent)| == |LiveActorIds(creatures)|
      && forall k :: 0 <= k < |LiveActorIds(creatures)| ==> Creates(sent)[k] == (recipient.value, LiveActorIds(creatures)[k])
  {
    sent, fault := [], false;
    var i := 0;
    while i < |creatures| && !fault
      invariant 0 <= i <= |creatures|
      invariant Delivery(sent, fault) == IntroduceCreaturesTo(recipient, creatures[..i])
      decreases |creatures| - i
    {
      assert creatures[..i + 1][..i] == creatures[..i];
      var d := CreateCreatureOnClient(recipient, creatures[i]);
      sent, fault := sent + d.sent, d.fault;
      i := i + 1;
    }
    if fault {
      IntroduceCreaturesToStops(recipient, creatures, i);
    } else {
      assert creatures[..i] == creatures;
    }
    IntroduceCreaturesToCreates(recipient, creatures);
  }

  /** The actor ids of the non-null creatures of a list, in order. */
  function LiveActorIds(creatures: seq<Option<Creature>>): seq<int> {
    if |creatures| == 0 then []
    else
      var last := creatures[|creatures| - 1];
      LiveActorIds(creatures[..|creatures| - 1]) + (if last.Some? then [last.value.actor.entityId] else [])
  }

  /**
   * Without a player nothing is sent, and the run faults exactly when some
   * creature is live; with one, there is one create on the client per live
   * creature, in list order, and no fault.
   */
  lemma {:induction false} IntroduceCreaturesToCreates(recipient: Option<ClientId>, creatures: seq<Option<Creature>>)
    ensures var d := IntroduceCreaturesTo(recipient, creatures);
      recipient.None? ==> d.sent == [] && (d.fault <==> |LiveActorIds(creatures)| > 0)
    ensures var d := IntroduceCreaturesTo(recipient, creatures);
      recipient.Some? ==>
        && !d.fault
        && |Creates(d.sent)| == |LiveActorIds(creatures)|
        && forall k :: 0 <= k < |LiveActorIds(creatures)| ==> Creates(d.sent)[k] == (recipient.value, LiveActorIds(creatures)[k])
    decreases |creatures|
  {
    if |creatures| > 0 {
      var init := creatures[..|creatures| - 1];
      IntroduceCreaturesToCreates(recipient, init);
      var d0 := IntroduceCreaturesTo(recipient, init);
      if !d0.fault {
        CreatesAppend(d0.sent, CreateCreatureOnClient(recipient, creatures[|creatures| - 1]).sent);
        CreatesOfCreateOnClient(recipient, creatures[|creatures| - 1]);
      }
    }
  }

  // ---------------------------------------------------------------------------
  // NPC conversation status
  // ---------------------------------------------------------------------------

  /**
   * UpdateConversationStatus: `scanSent` is what the mission scan sent (each
   * status with an empty package list). When it sent nothing, a vendor shows
   * its package as available; when still nothing, the None status is sent
   * with a null list. The fallbacks never add to a scan that sent something,
   * and at least one status is always sent.
   */
  function UpdateConversationStatus(to: ClientId, actorId: int, creatureType: CreatureType,
                                    scanSent: seq<ConversationStatus>): (sent: seq<Message>)
    requires creatureType.hasNpc
    ensures |sent| >= 1
    ensures |scanSent| > 0 ==> (|sent| == |scanSent|
      && forall k :: 0 <= k < |sent| ==> sent[k] == Message(to, Entity(actorId), NpcConversationStatus(scanSent[k], Some([]))))
    ensures |scanSent| == 0 && creatureType.vendor.Some? ==>
      sent == [Message(to, Entity(actorId), NpcConversationStatus(Available, Some([creatureType.vendor.value.vendorPackageId])))]
    ensures |scanSent| == 0 && creatureType.vendor.None? ==>
      sent == [Message(to, Entity(actorId), NpcConversationStatus(NoStatus, None))]
  {
    var scan := seq(|scanSent|, k requires 0 <= k < |scanSent| => Message(to, Entity(actorId), NpcConversationStatus(scanSent[k], Some([]))));
    var statusSet := |scan| > 0;
    var vendorSent := if creatureType.vendor.Some? && !statusSet
      then [Message(to, Entity(actorId), NpcConversationStatus(Available, Some([creatureType.vendor.value.vendorPackageId])))]
      else [];
    var statusSet' := statusSet || |vendorSent| > 0;
    var noneSent := if !statusSet' then [Message(to, Entity(actorId), NpcConversationStatus(NoStatus, None))] else [];
    scan + vendorSent + noneSent
  }

  datatype ScriptCommand = CompleteObjective | Collector | OtherCommand

  /** A mission script line: its command, the NPC it names and the objective storage slot it uses. */
  datatype ScriptLine = ScriptLine(command: ScriptCommand, value1: int, storageIndex: int)

  /**
   * The script-line scan of one mission-log entry, as written: the first
   * line that completes an objective at this NPC and whose storage slot is not
   * yet done yields ObjectiveComplete. The Collector test sits inside the
   * CompleteObjective branch, so its MissionComplete result is never reached.
   */
  function ScanScriptLines(lines: seq<ScriptLine>, npcDbId: int, doneSlots: set<int>, state: int, stateCount: int)
    : Option<ConversationStatus>
  {
    if |lines| == 0 then None
    else
      var line := lines[0];
      var rest := ScanScriptLines(lines[1..], npcDbId, doneSlots, state, stateCount);
      if line.command == CompleteObjective then
        if npcDbId == line.value1 then
          if line.storageIndex in doneSlots then rest else Some(ObjectiveComplete)
        else if line.command == Collector then
          if npcDbId == line.value1 then
            if state != stateCount - 1 then rest else Some(MissionComplete)
          else rest
        else rest
      else rest
  }

  /** A line that makes the scan report ObjectiveComplete. */
  predicate CompletableAt(line: ScriptLine, npcDbId: int, doneSlots: set<int>) {
    line.command == CompleteObjective && line.value1 == npcDbId && line.storageIndex !in doneSlots
  }

  /**
   * The scan reports ObjectiveComplete exactly when some line is completable,
   * and otherwise nothing: a mission-complete status can never come out of it.
   */
  lemma {:induction false} ScanScriptLinesSpec(lines: seq<ScriptLine>, npcDbId: int, doneSlots: set<int>, state: int, stateCount: int)
    ensures var r := ScanScriptLines(lines, npcDbId, doneSlots, state, stateCount);
      && (r == Some(ObjectiveComplete) <==> exists i :: 0 <= i < |lines| && CompletableAt(lines[i], npcDbId, doneSlots))
      && (r.None? <==> forall i :: 0 <= i < |lines| ==> !CompletableAt(lines[i], npcDbId, doneSlots))
    decreases |lines|
  {
    if |lines| > 0 {
      ScanScriptLinesSpec(lines[1..], npcDbId, doneSlots, state, stateCount);
      forall i | 0 < i < |lines| ensures lines[i] == lines[1..][i - 1] { }
      if exists i :: 0 <= i < |lines| && CompletableAt(lines[i], npcDbId, doneSlots) {
        var i :| 0 <= i < |lines| && CompletableAt(lines[i], npcDbId, doneSlots);
        if i > 0 && !CompletableAt(lines[0], npcDbId, doneSlots) {
          assert CompletableAt(lines[1..][i - 1], npcDbId, doneSlots);
        }
      }
    }
  }

  /** The Collector branch is unreachable: the scan never reports MissionComplete. */
  lemma CollectorUnreachable(lines: seq<ScriptLine>, npcDbId: int, doneSlots: set<int>, state: int, stateCount: int)
    ensures ScanScriptLines(lines, npcDbId, doneSlots, state, stateCount) != Some(MissionComplete)
  {
    ScanScriptLinesSpec(lines, npcDbId, doneSlots, state, stateCount);
  }
}
