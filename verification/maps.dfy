/**
 * The document model a parse produces: `Map`, `Tileset` and the records
 * the map builder collects. Layers, image layers, object groups, property
 * values and colours are built by code outside this model and appear here
 * only as records that the map stores.
 */
module Maps {
  import opened Wrappers
  import opened Decimal
  import opened Orientations

  /** A tileset's source image; only its pixel width matters to the rectangle lookup. */
  datatype Image = Image(source: string, width: u32, height: u32)

  /** A tileset supplies the global tile ids from `firstGid` upwards. */
  datatype Tileset = Tileset(
    firstGid: u32,
    name: string,
    tileWidth: u32,
    tileHeight: u32,
    spacing: u32,
    margin: u32,
    images: seq<Image>)

  datatype Layer = Layer(name: string)

  datatype ImageLayer = ImageLayer(name: string)

  datatype ObjectGroup = ObjectGroup(name: string)

  datatype Colour = Colour(red: nat, green: nat, blue: nat)

  datatype PropertyValue =
    | BoolValue(b: bool)
    | IntValue(i: int)
    | ColourValue(c: Colour)
    | StringValue(s: string)
    | FileValue(path: string)

  type Properties = map<string, PropertyValue>

  datatype Map = Map(
    version: string,
    orientation: Orientation,
    width: u32,
    height: u32,
    tileWidth: u32,
    tileHeight: u32,
    tilesets: seq<Tileset>,
    layers: seq<Layer>,
    imageLayers: seq<ImageLayer>,
    objectGroups: seq<ObjectGroup>,
    properties: Properties,
    backgroundColour: Option<Colour>,
    infinite: bool)
}
