/** The Facebook handle check, only as the verdict of its probe. */
module Facebook {
  import opened Common

  function NotFoundMessage(handle: string): string {
    "Failed to fetch Facebook page " + handle
  }

  /** `Facebook(handle)` given the HTTP status of the profile page (or the
      rejection of the request): only the status is inspected. */
  function Probe(handle: string, reply: Fetched<int>): (v: Verdict)
    ensures v.Pass? <==> reply.Got? && IsOk(reply.value)
    ensures reply.Got? && !IsOk(reply.value) ==> v == Fail(NotFoundMessage(handle))
    ensures reply.Failed? ==> v == Fail(reply.reason)
  {
    match reply
    case Failed(reason) => Fail(reason)
    case Got(status) => if IsOk(status) then Pass else Fail(NotFoundMessage(handle))
  }
}
