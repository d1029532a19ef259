/**
 * The effect of the `get_attrs!` extraction on one start tag's attributes:
 * every attribute whose name is declared is converted and stored, so the
 * last occurrence of a name decides its value. A required field that is
 * missing or does not convert fails the whole extraction with one error.
 */
module Attributes {
  import opened Wrappers

  /** An XML attribute as a (name, value) pair. */
  type Attribute = (string, string)

  /** The value of the last attribute called `name`, if any. */
  function Lookup(attrs: seq<Attribute>, name: string): (r: Option<string>)
    ensures r.None? <==> forall i :: 0 <= i < |attrs| ==> attrs[i].0 != name
    ensures r.Some? ==>
      exists i :: 0 <= i < |attrs| && attrs[i] == (name, r.value) &&
        forall j :: i < j < |attrs| ==> attrs[j].0 != name
  {
    if |attrs| == 0 then None
    else if attrs[|attrs| - 1].0 == name then Some(attrs[|attrs| - 1].1)
    else Lookup(attrs[..|attrs| - 1], name)
  }

  /** A declared field: the converted value of its last occurrence, or `None` when absent or unconvertible. */
  function Field<T>(attrs: seq<Attribute>, name: string, convert: string -> Option<T>): Option<T> {
    match Lookup(attrs, name)
    case None => None
    case Some(v) => convert(v)
  }
}
