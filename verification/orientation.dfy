/** The map's projection (`Orientation`) and its string form. */
module Orientations {
  import opened Wrappers
  import opened Errors

  datatype Orientation = Orthogonal | Isometric | Staggered | Hexagonal

  /** The four tokens the format uses, all lower case. */
  const Tokens: set<string> := {"orthogonal", "isometric", "staggered", "hexagonal"}

  /** `Display for Orientation`. */
  function OrientationName(o: Orientation): (s: string)
    ensures s in Tokens
  {
    match o
    case Orthogonal => "orthogonal"
    case Isometric => "isometric"
    case Staggered => "staggered"
    case Hexagonal => "hexagonal"
  }

  /** `FromStr for Orientation`: exact, case-sensitive match. */
  function ParseOrientation(s: string): (r: Result<Orientation, ParseTileError>)
    ensures r.Ok? <==> s in Tokens
    ensures r.Err? ==> r.error == OrientationError
  {
    match s
    case "orthogonal" => Ok(Orthogonal)
    case "isometric" => Ok(Isometric)
    case "staggered" => Ok(Staggered)
    case "hexagonal" => Ok(Hexagonal)
    case _ => Err(OrientationError)
  }

  /** Printing then parsing gives back the orientation. */
  lemma ParseOrientationName(o: Orientation)
    ensures ParseOrientation(OrientationName(o)) == Ok(o)
  {
  }

  /** Parsing then printing gives back the text: the accepted strings are exactly the printed ones. */
  lemma OrientationNameOfParse(s: string)
    requires ParseOrientation(s).Ok?
    ensures OrientationName(ParseOrientation(s).value) == s
  {
  }

  /** Distinct orientations print differently. */
  lemma OrientationNameInjective(a: Orientation, b: Orientation)
    requires OrientationName(a) == OrientationName(b)
    ensures a == b
  {
    ParseOrientationName(a);
    ParseOrientationName(b);
  }

  /** Other casings are rejected. */
  lemma ParseOrientationIsCaseSensitive()
    ensures ParseOrientation("Orthogonal") == Err(OrientationError)
    ensures ParseOrientation("ISOMETRIC") == Err(OrientationError)
  {
  }
}
