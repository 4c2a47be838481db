/** The hotbar and inventory state of the user interface: which hotbar slot
    is selected, what each slot holds, and the 36-slot inventory with its
    first-empty insert, first-match remove and count. Drawing is not part of
    this model. */
module Hotbar {
  import opened Blocks
  import BlockDatabase
  import Coords

  const HOTBAR_SIZE: int := 9
  const INVENTORY_ROWS: int := 4
  const INVENTORY_COLS: int := 9
  const INVENTORY_SIZE: int := INVENTORY_ROWS * INVENTORY_COLS

  /** The hotbar the constructor sets up, slot 0 first. */
  const StartingHotbar: seq<BlockType> :=
    [Grass, Dirt, Stone, Cobblestone, WoodPlank, WoodLog, Sand, Brick, Obsidian]

  /** The block types initializeInventoryBlocks lays out, in order. */
  const AvailableBlocks: seq<BlockType> :=
    [Grass, Dirt, Stone, Cobblestone, WoodPlank, WoodLog, Leaves, Sand,
     Water, Bedrock, Snow, Ice, Glowstone, Obsidian, Brick, MossyStone,
     Gravel, GoldOre, IronOre, DiamondOre, EmeraldOre, RedstoneOre]

  /** The inventory after initializeInventoryBlocks: the available types,
      then air up to the last slot. */
  function StartingInventory(): (s: seq<BlockType>)
    ensures |s| == INVENTORY_SIZE
    ensures s[..|AvailableBlocks|] == AvailableBlocks
    ensures forall i | |AvailableBlocks| <= i < |s| :: s[i] == Air
  {
    AvailableBlocks + seq(INVENTORY_SIZE - |AvailableBlocks|, _ => Air)
  }

  /** The position of a block type in its declaration: Air is 0, then
      Grass 1 up to RedstoneOre 22. */
  function Ordinal(t: BlockType): int
  {
    match t
    case Air => 0 case Grass => 1 case Dirt => 2 case Stone => 3
    case Cobblestone => 4 case WoodPlank => 5 case WoodLog => 6 case Leaves => 7
    case Sand => 8 case Water => 9 case Bedrock => 10 case Snow => 11
    case Ice => 12 case Glowstone => 13 case Obsidian => 14 case Brick => 15
    case MossyStone => 16 case Gravel => 17 case GoldOre => 18 case IronOre => 19
    case DiamondOre => 20 case EmeraldOre => 21 case RedstoneOre => 22
  }

  /** The type at a declaration position. */
  function FromOrdinal(k: int): BlockType
  {
    if k == 1 then Grass else if k == 2 then Dirt else if k == 3 then Stone
    else if k == 4 then Cobblestone else if k == 5 then WoodPlank
    else if k == 6 then WoodLog else if k == 7 then Leaves else if k == 8 then Sand
    else if k == 9 then Water else if k == 10 then Bedrock else if k == 11 then Snow
    else if k == 12 then Ice else if k == 13 then Glowstone else if k == 14 then Obsidian
    else if k == 15 then Brick else if k == 16 then MossyStone else if k == 17 then Gravel
    else if k == 18 then GoldOre else if k == 19 then IronOre else if k == 20 then DiamondOre
    else if k == 21 then EmeraldOre else if k == 22 then RedstoneOre else Air
  }

  /** Declaration positions tell types apart, and only Air is at 0. */
  lemma OrdinalInverse(t: BlockType)
    ensures FromOrdinal(Ordinal(t)) == t
    ensures 0 <= Ordinal(t) <= 22 && (Ordinal(t) == 0 <==> t == Air)
  {
  }

  /** s lists the non-air types in declaration order: slot i holds the
      type at position i + 1. */
  ghost predicate InDeclarationOrder(s: seq<BlockType>)
  {
    |s| == 22 && forall i | 0 <= i < |s| :: Ordinal(s[i]) == i + 1
  }

  /** In a list of strictly increasing declaration positions a type occurs
      at most once. */
  lemma {:induction false} CountInIncreasing(s: seq<BlockType>, t: BlockType)
    requires forall i, j | 0 <= i < j < |s| :: Ordinal(s[i]) < Ordinal(s[j])
    ensures multiset(s)[t] == if t in s then 1 else 0
  {
    if s != [] {
      var rest := s[1..];
      assert s == [s[0]] + rest;
      CountInIncreasing(rest, t);
      if t == s[0] {
        assert forall k | 0 <= k < |rest| :: Ordinal(s[0]) < Ordinal(rest[k]) by {
          assert forall k | 0 <= k < |rest| :: rest[k] == s[k + 1];
        }
      }
    }
  }

  /** A list in declaration order holds every type but Air, each once. */
  lemma {:induction false} DeclarationOrderCounts(s: seq<BlockType>, t: BlockType)
    requires InDeclarationOrder(s)
    ensures multiset(s)[t] == if t == Air then 0 else 1
  {
    OrdinalInverse(t);
    if t != Air {
      var k := Ordinal(t) - 1;
      OrdinalInverse(s[k]);
      assert s[k] == t;
    } else {
      assert forall i | 0 <= i < |s| :: s[i] != Air by {
        forall i | 0 <= i < |s| ensures s[i] != Air {
          OrdinalInverse(s[i]);
        }
      }
    }
    CountInIncreasing(s, t);
  }

  /** A run of n air slots counts n air and nothing else. */
  lemma {:induction false} AirRun(n: nat, t: BlockType)
    ensures multiset(seq(n, _ => Air))[t] == if t == Air then n else 0
  {
    if n > 0 {
      AirRun(n - 1, t);
      assert seq(n, _ => Air) == seq(n - 1, _ => Air) + [Air];
    }
  }

  /** A 36-slot inventory laid out as initializeInventoryBlocks does from a
      list in declaration order holds every non-air type once and 14 air. */
  lemma {:induction false} LayoutCounts(s: seq<BlockType>, t: BlockType)
    requires InDeclarationOrder(s)
    ensures multiset(s + seq(INVENTORY_SIZE - |s|, _ => Air))[t] == if t == Air then 14 else 1
  {
    DeclarationOrderCounts(s, t);
    AirRun(INVENTORY_SIZE - |s|, t);
  }

  /** The available list is in declaration order. */
  lemma AvailableInDeclarationOrder()
    ensures InDeclarationOrder(AvailableBlocks)
  {
  }

  /** The available list holds every type but air, each exactly once. */
  lemma AvailableCounts(t: BlockType)
    ensures multiset(AvailableBlocks)[t] == if t == Air then 0 else 1
  {
    AvailableInDeclarationOrder();
    DeclarationOrderCounts(AvailableBlocks, t);
  }

  /** Every type but air starts in the inventory exactly once, and the
      remaining fourteen slots are air. */
  lemma StartingInventoryCounts(t: BlockType)
    ensures multiset(StartingInventory())[t] == if t == Air then 14 else 1
  {
    AvailableInDeclarationOrder();
    LayoutCounts(AvailableBlocks, t);
  }

  /** The scroll wrap: below 0 jumps to the last slot, past the last slot to
      the first, in between stays. */
  function Wrap(slot: int): (r: int)
    ensures 0 <= r < HOTBAR_SIZE
    ensures 0 <= slot < HOTBAR_SIZE ==> r == slot
    ensures slot < 0 ==> r == HOTBAR_SIZE - 1
    ensures slot >= HOTBAR_SIZE ==> r == 0
  {
    if slot < 0 then HOTBAR_SIZE - 1 else if slot >= HOTBAR_SIZE then 0 else slot
  }

  /** One notch at a time the wrap is arithmetic modulo the hotbar size, but
      a larger jump is not: from slot 0 a jump of ten lands on slot 0, not
      on slot 1. */
  lemma WrapIsModuloForSingleSteps(slot: int, step: int)
    requires 0 <= slot < HOTBAR_SIZE && -1 <= step <= 1
    ensures Wrap(slot - step) == (slot - step) % HOTBAR_SIZE
    ensures Wrap(0 + 10) == 0 && (0 + 10) % HOTBAR_SIZE == 1
  {
  }

  /** The first position of t in s, |s| when there is none. */
  function FirstIndex(s: seq<BlockType>, t: BlockType): (i: int)
    ensures 0 <= i <= |s|
    ensures i < |s| ==> s[i] == t
    ensures forall j | 0 <= j < i :: s[j] != t
    ensures i == |s| <==> t !in s
  {
    if |s| == 0 then 0
    else if s[0] == t then 0
    else 1 + FirstIndex(s[1..], t)
  }

  /** addBlockToInventory on the slot contents: the first air slot takes t;
      a full inventory is left as it is. */
  function Added(s: seq<BlockType>, t: BlockType): seq<BlockType>
  {
    var i := FirstIndex(s, Air);
    if i < |s| then s[i := t] else s
  }

  /** removeBlockFromInventory on the slot contents: the first slot holding
      t becomes air. */
  function Removed(s: seq<BlockType>, t: BlockType): seq<BlockType>
  {
    var i := FirstIndex(s, t);
    if i < |s| then s[i := Air] else s
  }

  /** Overwriting one slot moves one count from the old content to the new. */
  lemma UpdateCounts(s: seq<BlockType>, i: int, t: BlockType)
    requires 0 <= i < |s|
    ensures multiset(s[i := t]) == multiset(s) - multiset{s[i]} + multiset{t}
  {
    assert s == s[..i] + [s[i]] + s[i + 1..];
    assert s[i := t] == s[..i] + [t] + s[i + 1..];
  }

  /** Adding a non-air block raises its count by one exactly when an empty
      slot was free, and uses up that slot; every other count is kept. */
  lemma AddedCounts(s: seq<BlockType>, t: BlockType, u: BlockType)
    requires t != Air
    ensures |Added(s, t)| == |s|
    ensures Air in s ==> (multiset(Added(s, t))[t] == multiset(s)[t] + 1
      && multiset(Added(s, t))[Air] == multiset(s)[Air] - 1)
    ensures Air !in s ==> Added(s, t) == s
    ensures u != t && u != Air ==> multiset(Added(s, t))[u] == multiset(s)[u]
  {
    var i := FirstIndex(s, Air);
    if i < |s| {
      UpdateCounts(s, i, t);
    }
  }

  /** Removing a non-air block lowers its count by one exactly when it was
      present, and frees that slot; every other count is kept. */
  lemma RemovedCounts(s: seq<BlockType>, t: BlockType, u: BlockType)
    requires t != Air
    ensures |Removed(s, t)| == |s|
    ensures t in s ==> (multiset(Removed(s, t))[t] == multiset(s)[t] - 1
      && multiset(Removed(s, t))[Air] == multiset(s)[Air] + 1)
    ensures t !in s ==> Removed(s, t) == s
    ensures u != t && u != Air ==> multiset(Removed(s, t))[u] == multiset(s)[u]
  {
    var i := FirstIndex(s, t);
    if i < |s| {
      UpdateCounts(s, i, Air);
    }
  }

  /** The UI's own name switch, which differs from the registry's names. */
  function UiBlockName(t: BlockType): (r: string)
    ensures r == "Unknown" <==> t == Air
  {
    match t
    case Grass => "Grass"
    case Dirt => "Dirt"
    case Stone => "Stone"
    case Cobblestone => "Cobblestone"
    case WoodPlank => "Wood Planks"
    case WoodLog => "Wood Log"
    case Leaves => "Leaves"
    case Sand => "Sand"
    case Water => "Water"
    case Bedrock => "Bedrock"
    case Snow => "Snow"
    case Ice => "Ice"
    case Glowstone => "Glowstone"
    case Obsidian => "Obsidian"
    case Brick => "Brick"
    case MossyStone => "Mossy Stone"
    case Gravel => "Gravel"
    case GoldOre => "Gold Ore"
    case IronOre => "Iron Ore"
    case DiamondOre => "Diamond Ore"
    case EmeraldOre => "Emerald Ore"
    case RedstoneOre => "Redstone Ore"
    case Air => "Unknown"
  }

  /** The two name tables agree on every type but grass and air. */
  lemma {:induction false} UiNamesAgreeWithRegistry(t: BlockType)
    requires t != Grass && t != Air
    ensures UiBlockName(t) == BlockDatabase.BlockName(t)
  {
    if t in {Dirt, Stone, Cobblestone, WoodPlank, WoodLog, Leaves, Sand} {
      TerrainNamesAgree(t);
    } else if t in {Water, Bedrock, Snow, Ice, Glowstone, Obsidian, Brick} {
      SpecialNamesAgree(t);
    } else {
      StoneNamesAgree(t);
    }
  }

  /** The first seven tags after grass. */
  lemma {:induction false} TerrainNamesAgree(t: BlockType)
    requires t in {Dirt, Stone, Cobblestone, WoodPlank, WoodLog, Leaves, Sand}
    ensures UiBlockName(t) == BlockDatabase.BlockName(t)
  {
    BlockDatabase.EveryTypeNamed(t);
    match t
    case Dirt => case Stone => case Cobblestone => case WoodPlank => case WoodLog =>
    case Leaves => case Sand =>
  }

  /** The next seven tags. */
  lemma {:induction false} SpecialNamesAgree(t: BlockType)
    requires t in {Water, Bedrock, Snow, Ice, Glowstone, Obsidian, Brick}
    ensures UiBlockName(t) == BlockDatabase.BlockName(t)
  {
    BlockDatabase.EveryTypeNamed(t);
    match t
    case Water => case Bedrock => case Snow => case Ice => case Glowstone =>
    case Obsidian => case Brick =>
  }

  /** The last seven tags: mossy stone, gravel and the ores. */
  lemma {:induction false} StoneNamesAgree(t: BlockType)
    requires t in {MossyStone, Gravel, GoldOre, IronOre, DiamondOre, EmeraldOre, RedstoneOre}
    ensures UiBlockName(t) == BlockDatabase.BlockName(t)
  {
    BlockDatabase.EveryTypeNamed(t);
    match t
    case MossyStone => case Gravel => case GoldOre => case IronOre => case DiamondOre =>
    case EmeraldOre => case RedstoneOre =>
  }

  /** Grass is "Grass" in the UI and "Grass Block" in the registry; air,
      which the UI has no case for, is "Unknown" there and "Air" in the
      registry. */
  lemma {:induction false} UiNamesDiffer()
    ensures UiBlockName(Grass) == "Grass" != BlockDatabase.BlockName(Grass)
    ensures BlockDatabase.BlockName(Grass) == "Grass Block"
    ensures UiBlockName(Air) == "Unknown" != BlockDatabase.BlockName(Air)
    ensures BlockDatabase.BlockName(Air) == "Air"
  {
    BlockDatabase.EveryTypeNamed(Grass);
    BlockDatabase.EveryTypeNamed(Air);
  }

  class UI {
    var selectedSlot: int
    var inventoryOpen: bool
    const hotbarBlocks: array<BlockType>
    const inventoryBlocks: array<BlockType>

    /** The arrays have their declared sizes, are distinct, and the
        selection is a hotbar slot. */
    ghost predicate Valid()
      reads this
    {
      hotbarBlocks.Length == HOTBAR_SIZE && inventoryBlocks.Length == INVENTORY_SIZE
      && hotbarBlocks != inventoryBlocks && 0 <= selectedSlot < HOTBAR_SIZE
    }

    /** The first slot selected, the inventory closed, the hotbar set to
        the building blocks, the inventory laid out. */
    constructor ()
      ensures Valid() && fresh(hotbarBlocks) && fresh(inventoryBlocks)
      ensures selectedSlot == 0 && !inventoryOpen
      ensures hotbarBlocks[..] == StartingHotbar
      ensures inventoryBlocks[..] == StartingInventory()
    {
      selectedSlot := 0;
      inventoryOpen := false;
      hotbarBlocks := new BlockType[HOTBAR_SIZE];
      inventoryBlocks := new BlockType[INVENTORY_SIZE];
      new;
      hotbarBlocks[0] := Grass;
      hotbarBlocks[1] := Dirt;
      hotbarBlocks[2] := Stone;
      hotbarBlocks[3] := Cobblestone;
      hotbarBlocks[4] := WoodPlank;
      hotbarBlocks[5] := WoodLog;
      hotbarBlocks[6] := Sand;
      hotbarBlocks[7] := Brick;
      hotbarBlocks[8] := Obsidian;
      InitializeInventoryBlocks();
    }

    /** initializeInventoryBlocks: the available types in order, each while
        a slot is left, then air in every remaining slot. */
    method InitializeInventoryBlocks()
      requires inventoryBlocks.Length == INVENTORY_SIZE
      modifies inventoryBlocks
      ensures inventoryBlocks[..] == StartingInventory()
    {
      var index := 0;
      for k := 0 to |AvailableBlocks|
        invariant index == k
        invariant inventoryBlocks[..index] == AvailableBlocks[..k]
      {
        if index < INVENTORY_SIZE {
          inventoryBlocks[index] := AvailableBlocks[k];
          index := index + 1;
        }
      }
      while index < INVENTORY_SIZE
        invariant |AvailableBlocks| <= index <= INVENTORY_SIZE
        invariant inventoryBlocks[..|AvailableBlocks|] == AvailableBlocks
        invariant forall j | |AvailableBlocks| <= j < index :: inventoryBlocks[j] == Air
      {
        inventoryBlocks[index] := Air;
        index := index + 1;
      }
      assert inventoryBlocks[..] == inventoryBlocks[..|AvailableBlocks|] + inventoryBlocks[|AvailableBlocks|..];
    }

    /** selectSlot: takes a hotbar slot, ignores anything else. */
    method SelectSlot(slot: int)
      requires Valid()
      modifies this`selectedSlot
      ensures Valid()
      ensures 0 <= slot < HOTBAR_SIZE ==> selectedSlot == slot
      ensures !(0 <= slot < HOTBAR_SIZE) ==> selectedSlot == old(selectedSlot)
    {
      if slot >= 0 && slot < HOTBAR_SIZE {
        selectedSlot := slot;
      }
    }

    /** getSelectedBlockType: what the selected hotbar slot holds. */
    function GetSelectedBlockType(): (t: BlockType)
      requires Valid()
      reads this, hotbarBlocks
      ensures t in hotbarBlocks[..]
    {
      hotbarBlocks[selectedSlot]
    }

    /** handleScrollInput: moves the selection against the scroll, by the
        truncated offset, then wraps it back into the hotbar. */
    method HandleScrollInput(yOffset: real)
      requires Valid()
      modifies this`selectedSlot
      ensures Valid()
      ensures selectedSlot == Wrap(old(selectedSlot) - Coords.Trunc(yOffset))
    {
      selectedSlot := selectedSlot - Coords.Trunc(yOffset);
      if selectedSlot < 0 {
        selectedSlot := HOTBAR_SIZE - 1;
      } else if selectedSlot >= HOTBAR_SIZE {
        selectedSlot := 0;
      }
    }

    /** handleNumberKey: keys 1 to 9 pick slots 0 to 8; others are ignored. */
    method HandleNumberKey(key: int)
      requires Valid()
      modifies this`selectedSlot
      ensures Valid()
      ensures 1 <= key <= 9 ==> selectedSlot == key - 1
      ensures !(1 <= key <= 9) ==> selectedSlot == old(selectedSlot)
    {
      if key >= 1 && key <= 9 {
        selectedSlot := key - 1;
      }
    }

    /** setSelectedBlockType: the selected hotbar slot takes t; the other
        slots and the inventory keep theirs. */
    method SetSelectedBlockType(t: BlockType)
      requires Valid()
      modifies hotbarBlocks
      ensures hotbarBlocks[..] == old(hotbarBlocks[..])[selectedSlot := t]
      ensures GetSelectedBlockType() == t
    {
      hotbarBlocks[selectedSlot] := t;
    }

    /** toggleInventory: opens a closed inventory and closes an open one,
        so two toggles restore the state. */
    method ToggleInventory()
      modifies this`inventoryOpen
      ensures inventoryOpen == !old(inventoryOpen)
    {
      inventoryOpen := !inventoryOpen;
    }

    /** addBlockToInventory: the first air slot takes t; a full inventory is
        left unchanged. */
    method AddBlockToInventory(t: BlockType)
      requires Valid()
      modifies inventoryBlocks
      ensures inventoryBlocks[..] == Added(old(inventoryBlocks[..]), t)
    {
      ghost var s := inventoryBlocks[..];
      for i := 0 to INVENTORY_SIZE
        invariant inventoryBlocks[..] == s
        invariant forall j | 0 <= j < i :: s[j] != Air
      {
        if inventoryBlocks[i] == Air {
          inventoryBlocks[i] := t;
          assert FirstIndex(s, Air) == i;
          return;
        }
      }
      assert Air !in s;
    }

    /** removeBlockFromInventory: the first slot holding t becomes air and
        the answer is true; without such a slot nothing changes and the
        answer is false. */
    method RemoveBlockFromInventory(t: BlockType) returns (removed: bool)
      requires Valid()
      modifies inventoryBlocks
      ensures removed <==> t in old(inventoryBlocks[..])
      ensures inventoryBlocks[..] == Removed(old(inventoryBlocks[..]), t)
    {
      ghost var s := inventoryBlocks[..];
      for i := 0 to INVENTORY_SIZE
        invariant inventoryBlocks[..] == s
        invariant forall j | 0 <= j < i :: s[j] != t
      {
        if inventoryBlocks[i] == t {
          inventoryBlocks[i] := Air;
          assert FirstIndex(s, t) == i;
          return true;
        }
      }
      assert t !in s;
      return false;
    }

    /** getBlockCount: the number of inventory slots holding t. */
    method GetBlockCount(t: BlockType) returns (count: int)
      requires Valid()
      ensures count == multiset(inventoryBlocks[..])[t]
    {
      count := 0;
      for i := 0 to INVENTORY_SIZE
        invariant count == multiset(inventoryBlocks[..i])[t]
      {
        assert inventoryBlocks[..i + 1] == inventoryBlocks[..i] + [inventoryBlocks[i]];
        if inventoryBlocks[i] == t {
          count := count + 1;
        }
      }
      assert inventoryBlocks[..INVENTORY_SIZE] == inventoryBlocks[..];
    }
  }
}
