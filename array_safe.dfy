/** The bounds-checked subscript `array[safe: index]`. */
module ArraySafe {
  import opened Wrappers

  /** `indices ~= index ? self[index] : nil`, on an array that the subscript only reads. */
  function SafeSubscript<T>(a: seq<T>, index: int): (r: Option<T>)
    ensures 0 <= index < |a| ==> r == Some(a[index])
    ensures index < 0 || |a| <= index ==> r == None
  {
    if 0 <= index < |a| then Some(a[index]) else None
  }

  /** The subscript yields a value exactly for the valid indices; on an empty array never. */
  lemma SafeSubscriptDefinedIff<T>(a: seq<T>, index: int)
    ensures SafeSubscript(a, index).Some? <==> 0 <= index < |a|
    ensures a == [] ==> SafeSubscript(a, index) == None
  {
  }
}
