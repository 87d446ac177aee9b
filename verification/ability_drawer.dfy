/**
 * The ability drawer of a player: a dictionary from drawer slot to the ability
 * bound there (PlayerManager.RequestSetAbilitySlot and RequestSwapAbilitySlots).
 * Each request also writes rows to the character ability-drawer table, kept
 * here as the list of rows written, and sends the drawer to the client.
 */
module AbilityDrawer {

  import opened Wrappers
  import opened Messages

  /** One drawer entry; `abilitySlotId` is a field of the entry, separate from its key. */
  datatype AbilityDrawerData = AbilityDrawerData(abilitySlotId: int, abilityId: int, abilityLevel: int)

  /** The drawer: slot -> entry. */
  type Drawer = map<int, AbilityDrawerData>

  /** One row written to the ability-drawer table: (slot, ability, level). */
  datatype AbilityRow = AbilityRow(slotId: int, abilityId: int, abilityLevel: int)

  /** The drawer after a request, the table rows written, and the packets sent. */
  datatype DrawerUpdate = DrawerUpdate(drawer: Drawer, persisted: seq<AbilityRow>, sent: seq<Message>)

  /** The only error: the source slot of a swap is empty (the dictionary lookup throws). */
  datatype DrawerError = EmptySourceSlot(slotId: int)

  /** Every entry records the slot it is stored under. */
  predicate WellFormed(d: Drawer) {
    forall s :: s in d ==> d[s].abilitySlotId == s
  }

  /** The drawer as the player sees it: slot -> (ability, level). */
  function Contents(d: Drawer): map<int, (int, int)> {
    map s | s in d :: (d[s].abilityId, d[s].abilityLevel)
  }

  /** The table after the rows are written, in order, over `table`. */
  function WriteRows(table: map<int, (int, int)>, rows: seq<AbilityRow>): map<int, (int, int)>
    decreases |rows|
  {
    if |rows| == 0 then table
    else WriteRows(table[rows[0].slotId := (rows[0].abilityId, rows[0].abilityLevel)], rows[1..])
  }

  /**
   * RequestSetAbilitySlot: ability id 0 clears the slot; any other id binds
   * the slot to (slot, ability, level), inserting or overwriting. The row is
   * written with the packet's values in both cases.
   */
  function RequestSetAbilitySlot(d: Drawer, client: ClientId, actorId: int, slotId: int, abilityId: int, abilityLevel: int)
    : (r: DrawerUpdate)
    ensures abilityId == 0 ==> slotId !in r.drawer
    ensures abilityId != 0 ==> slotId in r.drawer && r.drawer[slotId] == AbilityDrawerData(slotId, abilityId, abilityLevel)
    ensures forall s :: s != slotId ==> (s in r.drawer <==> s in d)
    ensures forall s :: s != slotId && s in d ==> r.drawer[s] == d[s]
    ensures r.persisted == [AbilityRow(slotId, abilityId, abilityLevel)]
    ensures r.sent == [Message(client, Entity(actorId), AbilityDrawer)]
  {
    var d' :=
      if abilityId == 0 then d - {slotId}
      else if slotId !in d then d[slotId := AbilityDrawerData(slotId, abilityId, abilityLevel)]
      else d[slotId := d[slotId].(abilityId := abilityId, abilityLevel := abilityLevel, abilitySlotId := slotId)];
    DrawerUpdate(d', [AbilityRow(slotId, abilityId, abilityLevel)], [Message(client, Entity(actorId), AbilityDrawer)])
  }

  /** The row written for a slot after a swap: its entry's fields, or (slot, 0, 0) when empty. */
  function RowFor(d: Drawer, slotId: int): AbilityRow {
    if slotId in d then AbilityRow(d[slotId].abilitySlotId, d[slotId].abilityId, d[slotId].abilityLevel)
    else AbilityRow(slotId, 0, 0)
  }

  /**
   * RequestSwapAbilitySlots: fails when the source slot is empty. An empty
   * target receives a copy of the source entry (with the target's slot id)
   * and the source is removed; otherwise the two entries trade places with
   * their `abilitySlotId` fields untouched. Then one row is written for the
   * target and one for the source.
   */
  function RequestSwapAbilitySlots(d: Drawer, client: ClientId, actorId: int, fromSlot: int, toSlot: int)
    : (r: Result<DrawerUpdate, DrawerError>)
    ensures r.Err? <==> fromSlot !in d
    ensures r.Ok? && toSlot !in d ==>
      && toSlot in r.value.drawer && fromSlot !in r.value.drawer
      && r.value.drawer[toSlot] == AbilityDrawerData(toSlot, d[fromSlot].abilityId, d[fromSlot].abilityLevel)
    ensures r.Ok? && toSlot in d ==>
      && r.value.drawer.Keys == d.Keys
      && r.value.drawer[toSlot] == d[fromSlot] && r.value.drawer[fromSlot] == d[toSlot]
    ensures r.Ok? ==> forall s :: s != fromSlot && s != toSlot ==>
      (s in r.value.drawer <==> s in d) && (s in d ==> r.value.drawer[s] == d[s])
    ensures r.Ok? ==> r.value.persisted == [RowFor(r.value.drawer, toSlot), RowFor(r.value.drawer, fromSlot)]
    ensures r.Ok? && toSlot !in d ==>
      r.value.persisted == [AbilityRow(toSlot, d[fromSlot].abilityId, d[fromSlot].abilityLevel), AbilityRow(fromSlot, 0, 0)]
    ensures r.Ok? && toSlot in d ==>
      r.value.persisted == [AbilityRow(d[fromSlot].abilitySlotId, d[fromSlot].abilityId, d[fromSlot].abilityLevel),
                            AbilityRow(d[toSlot].abilitySlotId, d[toSlot].abilityId, d[toSlot].abilityLevel)]
    ensures r.Ok? ==> r.value.sent == [Message(client, Entity(actorId), AbilityDrawer)]
  {
    if fromSlot !in d then Err(EmptySourceSlot(fromSlot))
    else
      var from := d[fromSlot];
      var d' :=
        if toSlot !in d then
          d[toSlot := AbilityDrawerData(toSlot, from.abilityId, from.abilityLevel)] - {fromSlot}
        else
          var to := d[toSlot];
          d[toSlot := from][fromSlot := to];
      Ok(DrawerUpdate(d', [RowFor(d', toSlot), RowFor(d', fromSlot)], [Message(client, Entity(actorId), AbilityDrawer)]))
  }

  // --- partners ----------------------------------------------------------------

  /** Clearing a slot right after setting it leaves the drawer without that slot and otherwise as before. */
  lemma SetThenClear(d: Drawer, client: ClientId, actorId: int, slotId: int, abilityId: int, abilityLevel: int, level2: int)
    ensures RequestSetAbilitySlot(RequestSetAbilitySlot(d, client, actorId, slotId, abilityId, abilityLevel).drawer,
                                  client, actorId, slotId, 0, level2).drawer == d - {slotId}
  {
  }

  /** Setting a slot keeps a well-formed drawer well-formed, and the table row agrees with the new contents. */
  lemma SetKeepsWellFormed(d: Drawer, client: ClientId, actorId: int, slotId: int, abilityId: int, abilityLevel: int)
    requires WellFormed(d)
    ensures var r := RequestSetAbilitySlot(d, client, actorId, slotId, abilityId, abilityLevel);
      && WellFormed(r.drawer)
      && (abilityId != 0 ==> WriteRows(Contents(d), r.persisted) == Contents(r.drawer))
  {
    var r := RequestSetAbilitySlot(d, client, actorId, slotId, abilityId, abilityLevel);
    if abilityId != 0 {
      assert WriteRows(Contents(d), r.persisted) == Contents(d)[slotId := (abilityId, abilityLevel)];
    }
  }

  /** Swapping two occupied slots twice restores the drawer. */
  lemma SwapTwiceRestores(d: Drawer, client: ClientId, actorId: int, a: int, b: int)
    requires a in d && b in d
    ensures var once := RequestSwapAbilitySlots(d, client, actorId, a, b).value.drawer;
            RequestSwapAbilitySlots(once, client, actorId, a, b).value.drawer == d
  {
  }

  /** Moving an entry to an empty slot and back restores a well-formed drawer. */
  lemma MoveBackRestores(d: Drawer, client: ClientId, actorId: int, a: int, b: int)
    requires WellFormed(d) && a in d && b !in d
    ensures var once := RequestSwapAbilitySlots(d, client, actorId, a, b).value.drawer;
            && WellFormed(once)
            && RequestSwapAbilitySlots(once, client, actorId, b, a).value.drawer == d
  {
  }

  // --- the swap of two occupied slots is not persisted ----------------------------

  /** Writing two rows is two map updates, in order. */
  lemma WriteTwoRows(table: map<int, (int, int)>, r0: AbilityRow, r1: AbilityRow)
    ensures WriteRows(table, [r0, r1]) ==
      table[r0.slotId := (r0.abilityId, r0.abilityLevel)][r1.slotId := (r1.abilityId, r1.abilityLevel)]
  {
    var t0 := table[r0.slotId := (r0.abilityId, r0.abilityLevel)];
    assert [r0, r1][1..] == [r1];
    assert WriteRows(t0, [r1]) == WriteRows(t0[r1.slotId := (r1.abilityId, r1.abilityLevel)], []);
  }

  /**
   * As written, swapping two occupied slots of a well-formed drawer writes
   * each entry back under its own, unchanged `abilitySlotId`, so the table
   * keeps the contents from before the swap.
   */
  lemma SwapIsNotPersisted(d: Drawer, client: ClientId, actorId: int, a: int, b: int)
    requires WellFormed(d) && a in d && b in d
    ensures var r := RequestSwapAbilitySlots(d, client, actorId, a, b).value;
            WriteRows(Contents(d), r.persisted) == Contents(d)
  {
    var r := RequestSwapAbilitySlots(d, client, actorId, a, b).value;
    assert r.persisted == [AbilityRow(a, d[a].abilityId, d[a].abilityLevel), AbilityRow(b, d[b].abilityId, d[b].abilityLevel)];
    WriteTwoRows(Contents(d), r.persisted[0], r.persisted[1]);
    assert r.persisted == [r.persisted[0], r.persisted[1]];
  }

  /** A concrete drawer whose swap the table does not follow: slots 1 and 2 hold abilities 10 and 20. */
  lemma SwapIsNotPersistedExample()
    ensures var d := map[1 := AbilityDrawerData(1, 10, 1), 2 := AbilityDrawerData(2, 20, 1)];
            var r := RequestSwapAbilitySlots(d, 0, 0, 1, 2).value;
            WriteRows(Contents(d), r.persisted) != Contents(r.drawer)
  {
    var d := map[1 := AbilityDrawerData(1, 10, 1), 2 := AbilityDrawerData(2, 20, 1)];
    var r := RequestSwapAbilitySlots(d, 0, 0, 1, 2).value;
    SwapIsNotPersisted(d, 0, 0, 1, 2);
    assert Contents(r.drawer)[1] == (20, 1);
    assert Contents(d)[1] == (10, 1);
  }

  /** The swap with each moved entry's `abilitySlotId` rewritten to its new slot. */
  function RequestSwapAbilitySlotsFixed(d: Drawer, client: ClientId, actorId: int, fromSlot: int, toSlot: int)
    : (r: Result<DrawerUpdate, DrawerError>)
    ensures r.Err? <==> fromSlot !in d
    ensures r.Ok? ==> Contents(r.value.drawer) == Contents(RequestSwapAbilitySlots(d, client, actorId, fromSlot, toSlot).value.drawer)
    ensures r.Ok? ==> r.value.sent == [Message(client, Entity(actorId), AbilityDrawer)]
  {
    if fromSlot !in d then Err(EmptySourceSlot(fromSlot))
    else
      var from := d[fromSlot];
      var d' :=
        if toSlot !in d then
          d[toSlot := AbilityDrawerData(toSlot, from.abilityId, from.abilityLevel)] - {fromSlot}
        else
          var to := d[toSlot];
          d[toSlot := from.(abilitySlotId := toSlot)][fromSlot := to.(abilitySlotId := fromSlot)];
      Ok(DrawerUpdate(d', [RowFor(d', toSlot), RowFor(d', fromSlot)], [Message(client, Entity(actorId), AbilityDrawer)]))
  }

  /**
   * The corrected swap keeps the drawer well-formed and the table follows it:
   * after the rows are written the table equals the new contents, with the
   * emptied source slot of a move recorded as ability 0.
   */
  lemma FixedSwapIsPersisted(d: Drawer, client: ClientId, actorId: int, a: int, b: int)
    requires WellFormed(d) && a in d
    ensures var r := RequestSwapAbilitySlotsFixed(d, client, actorId, a, b).value;
      && WellFormed(r.drawer)
      && WriteRows(Contents(d), r.persisted) ==
           (if b in d then Contents(r.drawer) else Contents(r.drawer)[a := (0, 0)])
  {
    var r := RequestSwapAbilitySlotsFixed(d, client, actorId, a, b).value;
    WriteTwoRows(Contents(d), r.persisted[0], r.persisted[1]);
    assert r.persisted == [r.persisted[0], r.persisted[1]];
  }
}
