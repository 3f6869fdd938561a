/** Reading a JSON request body under a size limit. The JSON decoder is an
    oracle `decode` that either yields the decoded value or fails. */
module Request {
  import opened Common

  type Byte = bv8

  /** `LimitBodyJSON`: an empty body is a decoding error, a body longer than
      `limit` is too large, and otherwise the decoder decides. The body is
      accepted exactly when it has between 1 and `limit` bytes and decodes;
      every failure is one of the two sentinel errors. */
  function LimitBodyJSON<T>(body: seq<Byte>, limit: int, decode: seq<Byte> -> Option<T>): (r: Result<T>)
    ensures r.Ok? <==> 1 <= |body| <= limit && decode(body).Some?
    ensures r.Ok? ==> r.value == decode(body).value
    ensures |body| == 0 ==> r == Err(JsonDecode)
    ensures r == Err(BodyTooLarge) <==> 0 < |body| && limit < |body|
    ensures r.Err? ==> r.error == JsonDecode || r.error == BodyTooLarge
  {
    if |body| == 0 then Err(JsonDecode)
    else if |body| > limit then Err(BodyTooLarge)
    else match decode(body)
      case None => Err(JsonDecode)
      case Some(v) => Ok(v)
  }

  /** The empty check comes first: even with a negative limit an empty body
      is a decoding error, not a size error. */
  lemma EmptyBeforeSize<T>(limit: int, decode: seq<Byte> -> Option<T>)
    requires limit < 0
    ensures LimitBodyJSON([], limit, decode) == Err(JsonDecode)
  {
  }

  /** A body of exactly `limit` bytes passes the size check: the decoder
      alone decides. */
  lemma LimitIsInclusive<T>(body: seq<Byte>, decode: seq<Byte> -> Option<T>)
    requires |body| > 0
    ensures LimitBodyJSON(body, |body|, decode).Ok? <==> decode(body).Some?
  {
  }
}
