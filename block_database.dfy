/** The block registry: display names and descriptions held in two tables that
    are filled lazily, once, plus the solidity and transparency predicates. */
module BlockDatabase {
  import opened Blocks

  /** The names that initialize() writes, one entry per tag. */
  function NameTable(): map<BlockType, string>
  {
    map[
      Air := "Air", Grass := "Grass Block", Dirt := "Dirt", Stone := "Stone",
      Cobblestone := "Cobblestone", WoodPlank := "Wood Planks", WoodLog := "Wood Log",
      Leaves := "Leaves", Sand := "Sand", Water := "Water", Bedrock := "Bedrock",
      Snow := "Snow", Ice := "Ice", Glowstone := "Glowstone", Obsidian := "Obsidian",
      Brick := "Brick", MossyStone := "Mossy Stone", Gravel := "Gravel",
      GoldOre := "Gold Ore", IronOre := "Iron Ore", DiamondOre := "Diamond Ore",
      EmeraldOre := "Emerald Ore", RedstoneOre := "Redstone Ore"
    ]
  }

  /** The descriptions that initialize() writes: only nine types have one. */
  function DescriptionTable(): map<BlockType, string>
  {
    map[
      Grass := "Natural grass-covered dirt block", Dirt := "Basic earth material",
      Stone := "Common stone found underground", Cobblestone := "Rough stone blocks",
      WoodPlank := "Processed wood planks", WoodLog := "Tree trunk material",
      Sand := "Fine granular material", Brick := "Fired clay bricks",
      Obsidian := "Dark volcanic glass"
    ]
  }

  const UnknownName: string := "Unknown Block"
  const NoDescription: string := "No description available"

  /** Name lookup with the registry's default. */
  function BlockName(t: BlockType): (r: string)
    ensures t in NameTable() && r == NameTable()[t]
  {
    EveryTypeNamed(t);
    if t in NameTable() then NameTable()[t] else UnknownName
  }

  /** Description lookup with the registry's default. */
  function BlockDescription(t: BlockType): (r: string)
    ensures r == NoDescription <==> t !in DescriptionTable()
    ensures t in DescriptionTable() ==> r == DescriptionTable()[t]
  {
    if t in DescriptionTable() then DescriptionTable()[t] else NoDescription
  }

  /** Every tag has a name-table entry. */
  lemma {:induction false} EveryTypeNamed(t: BlockType)
    ensures t in NameTable()
  {
    match t
    case Air => case Grass => case Dirt => case Stone => case Cobblestone =>
    case WoodPlank => case WoodLog => case Leaves => case Sand => case Water =>
    case Bedrock => case Snow => case Ice => case Glowstone => case Obsidian =>
    case Brick => case MossyStone => case Gravel => case GoldOre => case IronOre =>
    case DiamondOre => case EmeraldOre => case RedstoneOre =>
  }

  /** No table entry is the default, so "Unknown Block" is never produced
      for a well-formed tag. */
  lemma {:induction false} NoTypeUnknown(t: BlockType)
    ensures BlockName(t) != UnknownName
  {
    EveryTypeNamed(t);
    match t
    case Air => case Grass => case Dirt => case Stone => case Cobblestone =>
    case WoodPlank => case WoodLog => case Leaves => case Sand => case Water =>
    case Bedrock => case Snow => case Ice => case Glowstone => case Obsidian =>
    case Brick => case MossyStone => case Gravel => case GoldOre => case IronOre =>
    case DiamondOre => case EmeraldOre => case RedstoneOre =>
  }

  /** Exactly the nine described types get their own text; every other tag,
      Air, Leaves and Water included, gets the default. */
  lemma DescribedTypes(t: BlockType)
    ensures t in DescriptionTable() <==>
      t in {Grass, Dirt, Stone, Cobblestone, WoodPlank, WoodLog, Sand, Brick, Obsidian}
    ensures t !in DescriptionTable() ==> BlockDescription(t) == NoDescription
    ensures BlockDescription(Air) == BlockDescription(Leaves) == BlockDescription(Water) == NoDescription
  {
  }

  /** Every block that is not transparent is solid. */
  predicate IsBlockSolid(t: BlockType): (r: bool)
    ensures !IsBlockTransparent(t) ==> r
  {
    t != Air && t != Water
  }

  predicate IsBlockTransparent(t: BlockType): (r: bool)
    ensures r <==> t in {Air, Water, Ice, Leaves}
  {
    t == Air || t == Water || t == Ice || t == Leaves
  }

  /** Every opaque block is solid; the blocks that are both solid and
      transparent are exactly Ice and Leaves. */
  lemma SolidAndTransparent(t: BlockType)
    ensures !IsBlockTransparent(t) ==> IsBlockSolid(t)
    ensures IsBlockSolid(t) && IsBlockTransparent(t) <==> t == Ice || t == Leaves
    ensures !IsBlockSolid(t) <==> t == Air || t == Water
  {
  }

  /** The registry's static state: two tables and the flag that makes
      initialization happen once. */
  class Registry {
    var blockNames: map<BlockType, string>
    var blockDescriptions: map<BlockType, string>
    var initialized: bool

    /** Before the first initialization the tables are empty; afterwards they
        hold exactly the two tables above. */
    ghost predicate Valid()
      reads this
    {
      if initialized then
        blockNames == NameTable() && blockDescriptions == DescriptionTable()
      else
        blockNames == map[] && blockDescriptions == map[]
    }

    constructor ()
      ensures Valid() && !initialized
    {
      blockNames := map[];
      blockDescriptions := map[];
      initialized := false;
    }

    /** Fills both tables on the first call; later calls return at once. */
    method Initialize()
      requires Valid()
      modifies this
      ensures Valid() && initialized
      ensures old(initialized) ==> blockNames == old(blockNames) && blockDescriptions == old(blockDescriptions)
    {
      if initialized {
        return;
      }
      blockNames := blockNames[Air := "Air"][Grass := "Grass Block"][Dirt := "Dirt"][Stone := "Stone"];
      blockNames := blockNames[Cobblestone := "Cobblestone"][WoodPlank := "Wood Planks"][WoodLog := "Wood Log"];
      blockNames := blockNames[Leaves := "Leaves"][Sand := "Sand"][Water := "Water"][Bedrock := "Bedrock"];
      blockNames := blockNames[Snow := "Snow"][Ice := "Ice"][Glowstone := "Glowstone"][Obsidian := "Obsidian"];
      blockNames := blockNames[Brick := "Brick"][MossyStone := "Mossy Stone"][Gravel := "Gravel"];
      blockNames := blockNames[GoldOre := "Gold Ore"][IronOre := "Iron Ore"][DiamondOre := "Diamond Ore"];
      blockNames := blockNames[EmeraldOre := "Emerald Ore"][RedstoneOre := "Redstone Ore"];

      blockDescriptions := blockDescriptions[Grass := "Natural grass-covered dirt block"];
      blockDescriptions := blockDescriptions[Dirt := "Basic earth material"];
      blockDescriptions := blockDescriptions[Stone := "Common stone found underground"];
      blockDescriptions := blockDescriptions[Cobblestone := "Rough stone blocks"];
      blockDescriptions := blockDescriptions[WoodPlank := "Processed wood planks"];
      blockDescriptions := blockDescriptions[WoodLog := "Tree trunk material"];
      blockDescriptions := blockDescriptions[Sand := "Fine granular material"];
      blockDescriptions := blockDescriptions[Brick := "Fired clay bricks"];
      blockDescriptions := blockDescriptions[Obsidian := "Dark volcanic glass"];

      initialized := true;
    }

    method GetBlockName(t: BlockType) returns (name: string)
      requires Valid()
      modifies this
      ensures Valid() && initialized
      ensures name == BlockName(t)
      ensures t == Grass ==> name == "Grass Block"
    {
      Initialize();
      if t in blockNames {
        name := blockNames[t];
      } else {
        name := UnknownName;
      }
    }

    method GetBlockDescription(t: BlockType) returns (description: string)
      requires Valid()
      modifies this
      ensures Valid() && initialized
      ensures description == BlockDescription(t)
    {
      Initialize();
      if t in blockDescriptions {
        description := blockDescriptions[t];
      } else {
        description := NoDescription;
      }
    }
  }
}
