/** The messages of a remote call and its error codes, shared by the client and the server side. */
module Rpc {
  import opened Common

  /** Correlation ids are random 128-bit numbers in hexadecimal; the model only needs them distinct. */
  type Cid = string

  const CLIENT_PARAM_NOT_ADAPTED := -1
  const SERVER_FORMAT_ERROR := 2
  const SERVER_EXPIRED := 102

  datatype ResultInfo = ResultInfo(cid: Cid, errCode: int, error: string,
                                   resultsType: seq<string>, results: seq<seq<byte>>)

  datatype RpcInfo = RpcInfo(fn: string, reply: bool, expired: int, cid: Cid,
                             argsType: seq<string>, args: seq<seq<byte>>)

  datatype Backend = Local | Amqp

  function TimeoutText(cid: Cid): (s: string) {
    "timeout: This CallInfo : " + cid + " timeout!"
  }

  /** What the client itself sends to a caller whose deadline has passed: the local backend fills in the error
    * code and leaves the id empty, the broker backend does the opposite.
    */
  function TimeoutResult(backend: Backend, cid: Cid): (r: ResultInfo)
    ensures r.error != "" && r.results == []
  {
    match backend
    case Local => ResultInfo("", SERVER_EXPIRED, TimeoutText(cid), [], [])
    case Amqp => ResultInfo(cid, 0, TimeoutText(cid), [], [])
  }
}
