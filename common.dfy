/** Small shared datatypes used by every module of the model. */
module Common {

  /** An optional value: `None` stands for JavaScript's missing key,
      `undefined`, `null` or `false` where the source uses them as "no value". */
  datatype Option<T> = None | Some(value: T)

  /** The elements of an optional value as a (zero- or one-element) sequence. */
  function AsSeq<T>(o: Option<T>): (r: seq<T>)
    ensures |r| <= 1
    ensures o.Some? <==> |r| == 1
    ensures o.Some? ==> r[0] == o.value
  {
    match o
    case None => []
    case Some(v) => [v]
  }
}
