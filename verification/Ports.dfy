/** The ports of the pipeline as adversaries, and the log of what was asked of them. */
module Ports {
  import opened Outcomes
  import opened Dicts
  import opened Json
  import opened Security
  import opened SecretRefs
  import opened Contracts
  import opened Readouts

  datatype Credentials = Credentials(token: Bytes, tokenType: string)
  datatype WriteReceipt = WriteReceipt(uri: string, bytesWritten: nat, requestIdTag: string)
  datatype ComputeResult = ComputeResult(byRole: map<string, Bytes>, metadata: map<string, Json>)
  datatype WebhookAck = WebhookAck(httpStatus: int, responseBody: string)
  datatype WebhookPayload =
    WebhookPayload(requestId: string, status: string, outputs: seq<(string, WriteReceipt)>, metadata: map<string, Json>)

  /** A write may reach the store even though the call fails. */
  datatype WriteReply = WriteReply(reply: Reply<WriteReceipt>, applied: bool)

  /** One call of a port, with what it was given and what it gave back. */
  datatype Event =
    | DidAuthorize(uri: string, identity: Identity, allowed: Reply<()>)
    | DidResolve(ref: SecretRef, credentials: Reply<Credentials>)
    | DidRead(source: InputSpec, readWith: Credentials, bytes: Reply<Bytes>)
    | DidStamp(time: Reply<string>)
    | DidCompute(inputs: Dict<Bytes>, parameters: Json, context: ComputeContext, result: Reply<ComputeResult>)
    | DidWrite(sink: OutputSpec, payload: Bytes, wroteWith: Credentials, written: WriteReply)
    | DidNotify(callback: Callback, notice: WebhookPayload, ack: Reply<WebhookAck>)
    | DidDispatch(job: string, contractBytes: Bytes, requestId: string, jobId: Reply<string>)
  {
    predicate Succeeded() {
      match this
      case DidAuthorize(_, _, r) => r.Done?
      case DidResolve(_, r) => r.Done?
      case DidRead(_, _, r) => r.Done?
      case DidStamp(r) => r.Done?
      case DidCompute(_, _, _, r) => r.Done?
      case DidWrite(_, _, _, w) => w.reply.Done?
      case DidNotify(_, _, r) => r.Done?
      case DidDispatch(_, _, _, r) => r.Done?
    }
  }

  type History = seq<Event>

  /** Every port but the message decoder may answer by the whole history of the calls before. */
  datatype Ports = Ports(
    decode: Bytes -> Reply<map<string, Json>>,
    authorize: (History, string, Identity) -> Reply<()>,
    resolve: (History, SecretRef) -> Reply<Credentials>,
    read: (History, InputSpec, Credentials) -> Reply<Bytes>,
    now: History -> Reply<string>,
    compute: (History, Dict<Bytes>, Json, ComputeContext) -> Reply<ComputeResult>,
    write: (History, OutputSpec, Bytes, Credentials) -> WriteReply,
    notify: (History, Callback, WebhookPayload) -> Reply<WebhookAck>,
    dispatch: (History, string, Bytes, string) -> Reply<string>)
}
