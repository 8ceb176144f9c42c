/** `NaoEventData`: the payload text of an event, decoded on first use and
    kept once decoded. */
module Events {
  import opened Wrappers
  import opened Codec

  class EventData<V> {
    /** The payload's JSON text, as the event frame carried it. */
    const data: string
    /** The decoded value; `None` while nothing non-null has been decoded. */
    var extracted: Option<V>

    constructor (data: string)
      ensures this.data == data && extracted == None
    {
      this.data := data;
      extracted := None;
    }

    /** `Extract<T>()`: the cached value if there is one; otherwise element 0
        of the payload decoded as a list, which is cached when it is not null.
        A decoding failure caches nothing. */
    method Extract(decode: ListDecoder<V>) returns (r: Result<Option<V>, DecodeFault>)
      modifies this`extracted
      ensures old(extracted).Some? ==> r == Success(old(extracted)) && extracted == old(extracted)
      ensures old(extracted).None? ==> r == DecodeFirst(decode, data)
      ensures old(extracted).None? && r.Success? ==> extracted == r.value
      ensures old(extracted).None? && r.Failure? ==> extracted == None
      ensures extracted.Some? ==> r == Success(extracted)
    {
      if extracted.None? {
        var first := DecodeFirst(decode, data);
        if first.Failure? {
          return first;
        }
        extracted := first.value;
        return first;
      }
      r := Success(extracted);
    }
  }

  /** Two extractions in a row: once the first one yields a value, the second
      yields the same value whatever decoder it is given. */
  method ExtractTwice<V>(e: EventData<V>, first: ListDecoder<V>, second: ListDecoder<V>)
    returns (r1: Result<Option<V>, DecodeFault>, r2: Result<Option<V>, DecodeFault>)
    modifies e
    ensures old(e.extracted).None? ==> r1 == DecodeFirst(first, e.data)
    ensures r1.Success? && r1.value.Some? ==> r2 == r1
    ensures r1.Success? && r1.value.None? ==> r2 == DecodeFirst(second, e.data)
  {
    r1 := e.Extract(first);
    r2 := e.Extract(second);
  }
}
