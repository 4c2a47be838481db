/** The block-type tags shared by the chunk grid, the terrain generator, the
    block registry, the mesher and the inventory. Air is the empty cell. */
module Blocks {

  datatype BlockType =
    | Air
    | Grass
    | Dirt
    | Stone
    | Cobblestone
    | WoodPlank
    | WoodLog
    | Leaves
    | Sand
    | Water
    | Bedrock
    | Snow
    | Ice
    | Glowstone
    | Obsidian
    | Brick
    | MossyStone
    | Gravel
    | GoldOre
    | IronOre
    | DiamondOre
    | EmeraldOre
    | RedstoneOre
}
