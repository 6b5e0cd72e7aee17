/**
 * The `*_response_handler` builders.  All nine are the same code: each serialises the
 * one-key object `{"StartTime": <now as ISO 8601>}` with `json.dumps(..., sort_keys=True)`
 * and only logs its `values` argument.  The clock is a parameter.
 */
module Response {
  import opened Wrappers

  /** The characters `datetime.isoformat()` writes; none of them needs escaping in JSON. */
  type IsoTimestamp = s: string | forall i :: 0 <= i < |s| ==> s[i] in "0123456789-:.T"

  /** `json.dumps` with its default separators writes `{"StartTime": "` before the value ... */
  const Prefix: string := "{\"StartTime\": \""
  /** ... and `"}` after it. */
  const Suffix: string := "\"}"

  /** Reads back the StartTime of a one-key response payload, or None if the text is not one. */
  function DecodeStartTime(payload: string): Option<string>
  {
    if |payload| >= |Prefix| + |Suffix|
       && payload[..|Prefix|] == Prefix
       && payload[|payload| - |Suffix|..] == Suffix
       && forall i :: |Prefix| <= i < |payload| - |Suffix| ==> payload[i] != '"'
    then Some(payload[|Prefix|..|payload| - |Suffix|])
    else None
  }

  /** The response of every command handler: a one-key object holding the start time, whatever `values` is. */
  function StartTimeResponse<V>(values: V, startTime: IsoTimestamp): (payload: string)
    ensures DecodeStartTime(payload) == Some(startTime)
  {
    var payload := Prefix + startTime + Suffix;
    assert payload[..|Prefix|] == Prefix;
    assert payload[|payload| - |Suffix|..] == Suffix;
    assert payload[|Prefix|..|payload| - |Suffix|] == startTime;
    payload
  }

  /** Two responses are equal exactly when their timestamps are: the payload argument plays no part. */
  lemma ResponseDeterminedByTime<V, W>(v: V, w: W, t1: IsoTimestamp, t2: IsoTimestamp)
    ensures StartTimeResponse(v, t1) == StartTimeResponse(w, t2) <==> t1 == t2
  {
  }
}
