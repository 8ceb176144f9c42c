/** The part of the JSON mapper (JsonMapper.ToObject) that the remote module and
    the event payloads rely on: decoding a text as a list and taking element 0.
    The mapper itself is reflection-driven and is not part of this model; it is
    passed in as a function. */
module Codec {
  import opened Wrappers

  /** What `JsonMapper.ToObject<List<T>>(text)` yields: `None` when it throws
      (or yields no list), otherwise the list, whose elements may be null (`None`). */
  type ListDecoder<V> = string -> Option<seq<Option<V>>>

  /** Why taking element 0 of a decoded list failed. */
  datatype DecodeFault = MalformedText | EmptyList

  /** `JsonMapper.ToObject<List<T>>(text)[0]`: the first element of the decoded
      list; it fails when the mapper throws or when indexing an empty list throws. */
  function DecodeFirst<V>(decode: ListDecoder<V>, text: string): (r: Result<Option<V>, DecodeFault>)
    ensures r.Success? <==> decode(text).Some? && |decode(text).value| > 0
    ensures r.Success? ==> r.value == decode(text).value[0]
    ensures r == Failure(EmptyList) <==> decode(text) == Some([])
  {
    match decode(text)
    case None => Failure(MalformedText)
    case Some(items) => if |items| == 0 then Failure(EmptyList) else Success(items[0])
  }
}
