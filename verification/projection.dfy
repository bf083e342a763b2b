/** The public projection both models use for `toJSON`: take the instance's
    attribute dictionary and delete, one by one, every attribute of an ignore
    list. */
module Projection {
  import opened JsValue

  /** The dictionary without the ignored attributes: the specification of the
      deleting loop below. */
  function Omit(values: Record, ignored: set<string>): (r: Record)
    ensures r.Keys == values.Keys - ignored
    ensures forall k :: k in r ==> r[k] == values[k]
  {
    values - ignored
  }

  /** Delete the ignored attributes from the dictionary one after the other,
      in the order of the ignore list. */
  method DeleteEach(values: Record, ignored: seq<string>) returns (r: Record)
    ensures forall k :: k in r <==> k in values && k !in ignored
    ensures forall k :: k in r ==> r[k] == values[k]
    ensures r == Omit(values, set a | a in ignored)
  {
    r := values;
    for i := 0 to |ignored|
      invariant forall k :: k in r <==> k in values && k !in ignored[..i]
      invariant forall k :: k in r ==> r[k] == values[k]
    {
      r := r - {ignored[i]};
    }
    assert ignored[..|ignored|] == ignored;
  }

  /** Projecting twice removes nothing more than projecting once. */
  lemma OmitIdempotent(values: Record, ignored: set<string>)
    ensures Omit(Omit(values, ignored), ignored) == Omit(values, ignored)
  {
  }

  /** Deleting a key that is absent leaves the dictionary as it is: the
      projection of a projected dictionary is that same dictionary. */
  lemma OmitFixesProjected(values: Record, ignored: set<string>)
    requires values.Keys !! ignored
    ensures Omit(values, ignored) == values
  {
  }
}
