/**
 * `Map::new`: validate the root element's attributes, then fold the map's
 * child elements, in document order, into the map.
 *
 * The children reach the model already dispatched by tag. Each carries the
 * outcome of its own sub-builder, which is outside this model: a tileset or
 * a properties block is an already-computed result, while a layer, an image
 * layer or an object group is a function of what the map hands it (the
 * current `layer_index`, and for a layer also the map width and the
 * `infinite` flag).
 */
module MapBuilder {
  import opened Wrappers
  import opened Errors
  import opened Decimal
  import opened Attributes
  import opened Orientations
  import opened Maps

  const RootError: TiledError :=
    MalformedAttributes("map must have a version, width and height with correct types")

  /** The six required and two optional attributes of `<map>`, decoded. */
  datatype RootAttributes = RootAttributes(
    backgroundColour: Option<Colour>,
    infinite: bool,
    version: string,
    orientation: Orientation,
    width: u32,
    height: u32,
    tileWidth: u32,
    tileHeight: u32)

  function OrientationValue(s: string): Option<Orientation> {
    match ParseOrientation(s)
    case Ok(o) => Some(o)
    case Err(_) => None
  }

  /** A required numeric attribute is present and reads as a `u32`. */
  predicate HasU32(attrs: seq<Attribute>, name: string) {
    Lookup(attrs, name).Some? && ParseU32(Lookup(attrs, name).value).Some?
  }

  /**
   * The root attributes. Colour syntax belongs to code outside this model, so
   * the colour parser is a parameter; an unreadable colour counts as absent.
   */
  function ParseRootAttributes(attrs: seq<Attribute>, parseColour: string -> Option<Colour>): (r: Result<RootAttributes, TiledError>)
    ensures r.Ok? <==>
      && Lookup(attrs, "version").Some?
      && Lookup(attrs, "orientation").Some? && ParseOrientation(Lookup(attrs, "orientation").value).Ok?
      && HasU32(attrs, "width") && HasU32(attrs, "height")
      && HasU32(attrs, "tilewidth") && HasU32(attrs, "tileheight")
    ensures r.Err? ==> r.error == RootError
    ensures r.Ok? ==>
      && r.value.version == Lookup(attrs, "version").value
      && ParseOrientation(Lookup(attrs, "orientation").value) == Ok(r.value.orientation)
      && ParseU32(Lookup(attrs, "width").value) == Some(r.value.width)
      && ParseU32(Lookup(attrs, "height").value) == Some(r.value.height)
      && ParseU32(Lookup(attrs, "tilewidth").value) == Some(r.value.tileWidth)
      && ParseU32(Lookup(attrs, "tileheight").value) == Some(r.value.tileHeight)
    ensures r.Ok? ==> (r.value.infinite <==> Lookup(attrs, "infinite") == Some("1"))
    ensures r.Ok? ==>
      r.value.backgroundColour ==
        (if Lookup(attrs, "backgroundcolor").Some? then parseColour(Lookup(attrs, "backgroundcolor").value) else None)
  {
    var colour := Field(attrs, "backgroundcolor", parseColour);
    var infinite := Field(attrs, "infinite", (v: string) => Some(v == "1"));
    var version := Field(attrs, "version", (v: string) => Some(v));
    var orientation := Field(attrs, "orientation", OrientationValue);
    var width := Field(attrs, "width", ParseU32);
    var height := Field(attrs, "height", ParseU32);
    var tileWidth := Field(attrs, "tilewidth", ParseU32);
    var tileHeight := Field(attrs, "tileheight", ParseU32);
    if version.Some? && orientation.Some? && width.Some? && height.Some? && tileWidth.Some? && tileHeight.Some? then
      Ok(RootAttributes(colour, infinite.GetOr(false), version.value, orientation.value,
                        width.value, height.value, tileWidth.value, tileHeight.value))
    else
      Err(RootError)
  }

  /** A child element of `<map>` together with the outcome of its sub-builder. */
  datatype Child =
    | TilesetChild(tileset: Result<Tileset, TiledError>)
    | LayerChild(buildLayer: (u32, nat, bool) -> Result<Layer, TiledError>)
    | ImageLayerChild(buildImageLayer: nat -> Result<ImageLayer, TiledError>)
    | ObjectGroupChild(buildObjectGroup: Option<nat> -> Result<ObjectGroup, TiledError>)
    | PropertiesChild(properties: Result<Properties, TiledError>)

  /** Layers, image layers and object groups share one z-order. */
  predicate IsLayerLike(c: Child) {
    c.LayerChild? || c.ImageLayerChild? || c.ObjectGroupChild?
  }

  datatype Kind = TilesetKind | LayerKind | ImageLayerKind | ObjectGroupKind | PropertiesKind

  function KindOf(c: Child): Kind {
    match c
    case TilesetChild(_) => TilesetKind
    case LayerChild(_) => LayerKind
    case ImageLayerChild(_) => ImageLayerKind
    case ObjectGroupChild(_) => ObjectGroupKind
    case PropertiesChild(_) => PropertiesKind
  }

  /** How many children of kind `k` there are. */
  function Count(cs: seq<Child>, k: Kind): nat {
    if |cs| == 0 then 0
    else Count(cs[..|cs| - 1], k) + (if KindOf(cs[|cs| - 1]) == k then 1 else 0)
  }

  /** The number of layer-like children in `cs`: the index the next one receives. */
  function LayerCount(cs: seq<Child>): nat {
    Count(cs, LayerKind) + Count(cs, ImageLayerKind) + Count(cs, ObjectGroupKind)
  }

  /** The error a child's sub-builder reports, given what the map hands it. */
  function ChildError(c: Child, width: u32, layerIndex: nat, infinite: bool): Option<TiledError> {
    match c
    case TilesetChild(t) => if t.Err? then Some(t.error) else None
    case LayerChild(build) =>
      var l := build(width, layerIndex, infinite);
      if l.Err? then Some(l.error) else None
    case ImageLayerChild(build) =>
      var l := build(layerIndex);
      if l.Err? then Some(l.error) else None
    case ObjectGroupChild(build) =>
      var g := build(Some(layerIndex));
      if g.Err? then Some(g.error) else None
    case PropertiesChild(p) => if p.Err? then Some(p.error) else None
  }

  /** The builder's local variables while the children are consumed. */
  datatype Collected = Collected(
    tilesets: seq<Tileset>,
    layers: seq<Layer>,
    imageLayers: seq<ImageLayer>,
    objectGroups: seq<ObjectGroup>,
    properties: Properties,
    layerIndex: nat)

  const NothingCollected: Collected := Collected([], [], [], [], map[], 0)

  /** One arm of the tag dispatch. */
  function Step(acc: Collected, c: Child, width: u32, infinite: bool): (r: Result<Collected, TiledError>)
    ensures r.Err? <==> ChildError(c, width, acc.layerIndex, infinite).Some?
    ensures r.Err? ==> ChildError(c, width, acc.layerIndex, infinite) == Some(r.error)
    ensures r.Ok? ==>
      && r.value.layerIndex == acc.layerIndex + (if IsLayerLike(c) then 1 else 0)
      && r.value.tilesets == acc.tilesets + (if c.TilesetChild? then [c.tileset.value] else [])
      && |r.value.layers| == |acc.layers| + (if c.LayerChild? then 1 else 0)
      && r.value.layers[..|acc.layers|] == acc.layers
      && |r.value.imageLayers| == |acc.imageLayers| + (if c.ImageLayerChild? then 1 else 0)
      && r.value.imageLayers[..|acc.imageLayers|] == acc.imageLayers
      && |r.value.objectGroups| == |acc.objectGroups| + (if c.ObjectGroupChild? then 1 else 0)
      && r.value.objectGroups[..|acc.objectGroups|] == acc.objectGroups
      && (!c.PropertiesChild? ==> r.value.properties == acc.properties)
  {
    match c
    case TilesetChild(t) =>
      var tileset :- t;
      Ok(acc.(tilesets := acc.tilesets + [tileset]))
    case LayerChild(build) =>
      var layer :- build(width, acc.layerIndex, infinite);
      Ok(acc.(layers := acc.layers + [layer], layerIndex := acc.layerIndex + 1))
    case ImageLayerChild(build) =>
      var imageLayer :- build(acc.layerIndex);
      Ok(acc.(imageLayers := acc.imageLayers + [imageLayer], layerIndex := acc.layerIndex + 1))
    case PropertiesChild(p) =>
      var properties :- p;
      Ok(acc.(properties := properties))
    case ObjectGroupChild(build) =>
      var group :- build(Some(acc.layerIndex));
      Ok(acc.(objectGroups := acc.objectGroups + [group], layerIndex := acc.layerIndex + 1))
  }

  /** The dispatch loop over the children, stopping at the first failure. */
  function BuildChildren(cs: seq<Child>, width: u32, infinite: bool): (r: Result<Collected, TiledError>)
    ensures r.Ok? ==>
      && r.value.layerIndex == LayerCount(cs)
      && |r.value.tilesets| == Count(cs, TilesetKind)
      && |r.value.layers| == Count(cs, LayerKind)
      && |r.value.imageLayers| == Count(cs, ImageLayerKind)
      && |r.value.objectGroups| == Count(cs, ObjectGroupKind)
  {
    if |cs| == 0 then Ok(NothingCollected)
    else
      var acc :- BuildChildren(cs[..|cs| - 1], width, infinite);
      Step(acc, cs[|cs| - 1], width, infinite)
  }

  /** Every child's sub-builder succeeds on the layer index of its position. */
  ghost predicate AllChildrenSucceed(cs: seq<Child>, width: u32, infinite: bool) {
    forall j :: 0 <= j < |cs| ==> ChildError(cs[j], width, LayerCount(cs[..j]), infinite).None?
  }

  /** The children before position `j` succeed and child `j` fails with `e`. */
  ghost predicate FirstFailureAt(cs: seq<Child>, width: u32, infinite: bool, j: nat, e: TiledError) {
    && j < |cs|
    && ChildError(cs[j], width, LayerCount(cs[..j]), infinite) == Some(e)
    && AllChildrenSucceed(cs[..j], width, infinite)
  }

  lemma PrefixOfPrefix(cs: seq<Child>, n: nat, j: nat)
    requires j <= n <= |cs|
    ensures cs[..n][..j] == cs[..j]
  {
  }

  lemma {:induction false} AllChildrenSucceedSnoc(cs: seq<Child>, width: u32, infinite: bool)
    requires |cs| > 0
    ensures AllChildrenSucceed(cs, width, infinite) <==>
      && AllChildrenSucceed(cs[..|cs| - 1], width, infinite)
      && ChildError(cs[|cs| - 1], width, LayerCount(cs[..|cs| - 1]), infinite).None?
  {
    var n := |cs| - 1;
    forall j | 0 <= j < n
      ensures cs[..n][j] == cs[j] && cs[..n][..j] == cs[..j]
    {
      PrefixOfPrefix(cs, n, j);
    }
  }

  /** The fold succeeds exactly when every child's sub-builder succeeds on the layer index of its position. */
  lemma {:induction false} BuildChildrenSucceeds(cs: seq<Child>, width: u32, infinite: bool)
    ensures BuildChildren(cs, width, infinite).Ok? <==> AllChildrenSucceed(cs, width, infinite)
  {
    if |cs| > 0 {
      BuildChildrenSucceeds(cs[..|cs| - 1], width, infinite);
      AllChildrenSucceedSnoc(cs, width, infinite);
    }
  }

  /** A failing fold reports the error of the first child that fails. */
  lemma {:induction false} BuildChildrenFirstError(cs: seq<Child>, width: u32, infinite: bool)
    requires BuildChildren(cs, width, infinite).Err?
    ensures exists j: nat :: FirstFailureAt(cs, width, infinite, j, BuildChildren(cs, width, infinite).error)
  {
    var n := |cs| - 1;
    var prefix := cs[..n];
    var before := BuildChildren(prefix, width, infinite);
    if before.Err? {
      BuildChildrenFirstError(prefix, width, infinite);
      var j: nat :| FirstFailureAt(prefix, width, infinite, j, before.error);
      PrefixOfPrefix(cs, n, j);
      assert FirstFailureAt(cs, width, infinite, j, before.error);
    } else {
      BuildChildrenSucceeds(prefix, width, infinite);
      assert FirstFailureAt(cs, width, infinite, n, BuildChildren(cs, width, infinite).error);
    }
  }

  /** Tilesets are kept in document order: the k-th tileset child supplies the k-th tileset. */
  lemma {:induction false} BuildChildrenTilesets(cs: seq<Child>, width: u32, infinite: bool, j: nat)
    requires BuildChildren(cs, width, infinite).Ok?
    requires j < |cs| && cs[j].TilesetChild?
    ensures Count(cs[..j], TilesetKind) < |BuildChildren(cs, width, infinite).value.tilesets|
    ensures cs[j].tileset == Ok(BuildChildren(cs, width, infinite).value.tilesets[Count(cs[..j], TilesetKind)])
  {
    var n := |cs| - 1;
    var prefix := cs[..n];
    if j < n {
      assert cs[..j] == prefix[..j];
      BuildChildrenTilesets(prefix, width, infinite, j);
    }
  }

  /**
   * The k-th layer child is built with the map width, the `infinite` flag and
   * the layer index of its position, and supplies the k-th layer.
   */
  lemma {:induction false} BuildChildrenLayers(cs: seq<Child>, width: u32, infinite: bool, j: nat)
    requires BuildChildren(cs, width, infinite).Ok?
    requires j < |cs| && cs[j].LayerChild?
    ensures Count(cs[..j], LayerKind) < |BuildChildren(cs, width, infinite).value.layers|
    ensures cs[j].buildLayer(width, LayerCount(cs[..j]), infinite) ==
              Ok(BuildChildren(cs, width, infinite).value.layers[Count(cs[..j], LayerKind)])
  {
    var n := |cs| - 1;
    var prefix := cs[..n];
    if j < n {
      assert cs[..j] == prefix[..j];
      BuildChildrenLayers(prefix, width, infinite, j);
    }
  }

  /** The k-th image layer child is built with the layer index of its position and supplies the k-th image layer. */
  lemma {:induction false} BuildChildrenImageLayers(cs: seq<Child>, width: u32, infinite: bool, j: nat)
    requires BuildChildren(cs, width, infinite).Ok?
    requires j < |cs| && cs[j].ImageLayerChild?
    ensures Count(cs[..j], ImageLayerKind) < |BuildChildren(cs, width, infinite).value.imageLayers|
    ensures cs[j].buildImageLayer(LayerCount(cs[..j])) ==
              Ok(BuildChildren(cs, width, infinite).value.imageLayers[Count(cs[..j], ImageLayerKind)])
  {
    var n := |cs| - 1;
    var prefix := cs[..n];
    if j < n {
      assert cs[..j] == prefix[..j];
      BuildChildrenImageLayers(prefix, width, infinite, j);
    }
  }

  /** The k-th object group child is built with the layer index of its position and supplies the k-th object group. */
  lemma {:induction false} BuildChildrenObjectGroups(cs: seq<Child>, width: u32, infinite: bool, j: nat)
    requires BuildChildren(cs, width, infinite).Ok?
    requires j < |cs| && cs[j].ObjectGroupChild?
    ensures Count(cs[..j], ObjectGroupKind) < |BuildChildren(cs, width, infinite).value.objectGroups|
    ensures cs[j].buildObjectGroup(Some(LayerCount(cs[..j]))) ==
              Ok(BuildChildren(cs, width, infinite).value.objectGroups[Count(cs[..j], ObjectGroupKind)])
  {
    var n := |cs| - 1;
    var prefix := cs[..n];
    if j < n {
      assert cs[..j] == prefix[..j];
      BuildChildrenObjectGroups(prefix, width, infinite, j);
    }
  }

  /** No properties child follows position `j`. */
  predicate IsLastProperties(cs: seq<Child>, j: nat) {
    forall i :: j < i < |cs| ==> !cs[i].PropertiesChild?
  }

  /** Without a properties child, the map's properties are empty. */
  lemma {:induction false} BuildChildrenNoProperties(cs: seq<Child>, width: u32, infinite: bool)
    requires BuildChildren(cs, width, infinite).Ok?
    requires forall j :: 0 <= j < |cs| ==> !cs[j].PropertiesChild?
    ensures BuildChildren(cs, width, infinite).value.properties == map[]
  {
    if |cs| > 0 {
      var prefix := cs[..|cs| - 1];
      assert forall j :: 0 <= j < |prefix| ==> prefix[j] == cs[j];
      BuildChildrenNoProperties(prefix, width, infinite);
    }
  }

  /** The last properties child decides the map's properties: a later one replaces an earlier one. */
  lemma {:induction false} BuildChildrenLastProperties(cs: seq<Child>, width: u32, infinite: bool, j: nat)
    requires BuildChildren(cs, width, infinite).Ok?
    requires j < |cs| && cs[j].PropertiesChild? && IsLastProperties(cs, j)
    ensures cs[j].properties == Ok(BuildChildren(cs, width, infinite).value.properties)
  {
    var n := |cs| - 1;
    var prefix := cs[..n];
    if j < n {
      assert !cs[n].PropertiesChild?;
      assert forall i :: j < i < n ==> prefix[i] == cs[i];
      BuildChildrenLastProperties(prefix, width, infinite, j);
    }
  }

  /** Layer-like children receive strictly increasing indices in document order. */
  lemma {:induction false} LayerIndicesIncrease(cs: seq<Child>, i: nat, j: nat)
    requires i < j <= |cs| && IsLayerLike(cs[i])
    ensures LayerCount(cs[..i]) < LayerCount(cs[..j])
    decreases j
  {
    if j == i + 1 {
      assert cs[..j][..i] == cs[..i];
    } else {
      LayerIndicesIncrease(cs, i, j - 1);
      assert cs[..j][..j - 1] == cs[..j - 1];
    }
  }

  /** Every index below the number of layer-like children is handed to one of them. */
  lemma {:induction false} LayerIndicesCover(cs: seq<Child>, k: nat)
    requires k < LayerCount(cs)
    ensures exists j :: 0 <= j < |cs| && IsLayerLike(cs[j]) && LayerCount(cs[..j]) == k
  {
    var n := |cs| - 1;
    var prefix := cs[..n];
    if k < LayerCount(prefix) {
      LayerIndicesCover(prefix, k);
      var j :| 0 <= j < |prefix| && IsLayerLike(prefix[j]) && LayerCount(prefix[..j]) == k;
      assert cs[..j] == prefix[..j];
    } else {
      assert IsLayerLike(cs[n]) && LayerCount(cs[..n]) == k;
    }
  }

  /** `infinite` is set only by the value `"1"`, and is false when the attribute is absent. */
  lemma NewMapInfinite(attrs: seq<Attribute>, children: seq<Child>, parseColour: string -> Option<Colour>)
    requires NewMap(attrs, children, parseColour).Ok?
    ensures NewMap(attrs, children, parseColour).value.infinite <==> Lookup(attrs, "infinite") == Some("1")
    ensures Lookup(attrs, "infinite").None? ==> !NewMap(attrs, children, parseColour).value.infinite
  {
  }

  /** A map without children parses to one with no tilesets, layers or properties. */
  lemma NewMapWithoutChildren(attrs: seq<Attribute>, parseColour: string -> Option<Colour>)
    requires ParseRootAttributes(attrs, parseColour).Ok?
    ensures NewMap(attrs, [], parseColour).Ok?
    ensures NewMap(attrs, [], parseColour).value.tilesets == []
    ensures NewMap(attrs, [], parseColour).value.layers == []
    ensures NewMap(attrs, [], parseColour).value.properties == map[]
  {
  }

  /** `Map::new`. */
  function NewMap(attrs: seq<Attribute>, children: seq<Child>, parseColour: string -> Option<Colour>): (r: Result<Map, TiledError>)
    ensures ParseRootAttributes(attrs, parseColour).Err? ==> r == Err(RootError)
    ensures r.Ok? ==>
      var m := r.value;
      && ParseRootAttributes(attrs, parseColour) ==
           Ok(RootAttributes(m.backgroundColour, m.infinite, m.version, m.orientation,
                             m.width, m.height, m.tileWidth, m.tileHeight))
      && BuildChildren(children, m.width, m.infinite) ==
           Ok(Collected(m.tilesets, m.layers, m.imageLayers, m.objectGroups, m.properties, LayerCount(children)))
    ensures ParseRootAttributes(attrs, parseColour).Ok? ==>
      var root := ParseRootAttributes(attrs, parseColour).value;
      && (r.Ok? <==> AllChildrenSucceed(children, root.width, root.infinite))
      && (r.Err? ==> exists j: nat :: FirstFailureAt(children, root.width, root.infinite, j, r.error))
  {
    var root :- ParseRootAttributes(attrs, parseColour);
    BuildChildrenSucceeds(children, root.width, root.infinite);
    if BuildChildren(children, root.width, root.infinite).Err? then
      BuildChildrenFirstError(children, root.width, root.infinite);
      Err(BuildChildren(children, root.width, root.infinite).error)
    else
      var acc := BuildChildren(children, root.width, root.infinite).value;
      Ok(Map(root.version, root.orientation, root.width, root.height, root.tileWidth, root.tileHeight,
             acc.tilesets, acc.layers, acc.imageLayers, acc.objectGroups, acc.properties,
             root.backgroundColour, root.infinite))
  }
}
