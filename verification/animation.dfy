/** `Frame::new`: one animation keyframe from its `tileid` and `duration` attributes. */
module Animation {
  import opened Wrappers
  import opened Errors
  import opened Decimal
  import opened Attributes

  /** A keyframe: a tile id local to its tileset and a duration in milliseconds. */
  datatype Frame = Frame(tileId: u32, duration: u32)

  const FrameError: TiledError := MalformedAttributes("A frame must have tileid and duration")

  /** Both attributes are required and both are read as `u32`. */
  function NewFrame(attrs: seq<Attribute>): (r: Result<Frame, TiledError>)
    ensures r.Ok? <==>
      && Lookup(attrs, "tileid").Some? && ParseU32(Lookup(attrs, "tileid").value).Some?
      && Lookup(attrs, "duration").Some? && ParseU32(Lookup(attrs, "duration").value).Some?
    ensures r.Ok? ==>
      && ParseU32(Lookup(attrs, "tileid").value) == Some(r.value.tileId)
      && ParseU32(Lookup(attrs, "duration").value) == Some(r.value.duration)
    ensures r.Err? ==> r.error == FrameError
  {
    var tileId := Field(attrs, "tileid", ParseU32);
    var duration := Field(attrs, "duration", ParseU32);
    if tileId.Some? && duration.Some? then Ok(Frame(tileId.value, duration.value))
    else Err(FrameError)
  }

  /** The attributes a keyframe is written with. */
  function FrameAttributes(f: Frame): seq<Attribute> {
    [("tileid", DecimalString(f.tileId)), ("duration", DecimalString(f.duration))]
  }

  /** Writing a keyframe's attributes and reading them back gives the same keyframe. */
  lemma {:induction false} NewFrameOfFrameAttributes(f: Frame)
    ensures NewFrame(FrameAttributes(f)) == Ok(f)
  {
    var attrs := FrameAttributes(f);
    assert Lookup(attrs, "duration") == Some(DecimalString(f.duration));
    assert attrs[..1] == [("tileid", DecimalString(f.tileId))];
    assert Lookup(attrs, "tileid") == Some(DecimalString(f.tileId));
    ParseDecimalString(f.tileId);
    ParseDecimalString(f.duration);
  }

  /** Attribute order and unrelated attributes do not matter. */
  lemma NewFrameOfPresentValues(attrs: seq<Attribute>, tileId: u32, duration: u32)
    requires Lookup(attrs, "tileid") == Some(DecimalString(tileId))
    requires Lookup(attrs, "duration") == Some(DecimalString(duration))
    ensures NewFrame(attrs) == Ok(Frame(tileId, duration))
  {
    ParseDecimalString(tileId);
    ParseDecimalString(duration);
  }

  lemma NewFrameMissingTileId(attrs: seq<Attribute>)
    requires forall i :: 0 <= i < |attrs| ==> attrs[i].0 != "tileid"
    ensures NewFrame(attrs) == Err(FrameError)
  {
  }

  lemma NewFrameMissingDuration(attrs: seq<Attribute>)
    requires forall i :: 0 <= i < |attrs| ==> attrs[i].0 != "duration"
    ensures NewFrame(attrs) == Err(FrameError)
  {
  }

  /** A present value that is not a `u32` in decimal fails the same way as a missing one. */
  lemma NewFrameMalformedValue(attrs: seq<Attribute>, name: string)
    requires name == "tileid" || name == "duration"
    requires Lookup(attrs, name).Some? && ParseU32(Lookup(attrs, name).value).None?
    ensures NewFrame(attrs) == Err(FrameError)
  {
  }

  /** A negative duration is refused. */
  lemma NewFrameNegativeDuration(attrs: seq<Attribute>, text: string)
    requires Lookup(attrs, "duration") == Some("-" + text)
    ensures NewFrame(attrs) == Err(FrameError)
  {
  }
}
