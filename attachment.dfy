/** Attaching the report to the ticket: the local file is read, sent in one
    multipart PUT together with priority "1", and deleted only when the PUT
    answers 200 or 201. */
module Attachment {
  import opened Records
  import opened Report
  import opened Naming

  /** The local directory the script writes the report to: file name to
      the rows it holds. */
  class Disk {
    var files: map<string, seq<Row>>
  }

  /** `PUT /api/v2/tickets/{ticket}` with the multipart fields `priority`
      and `attachments[]` (file name, content, content type). */
  datatype AttachmentPut = AttachmentPut(
    ticket: int, priority: string, fileName: string, content: seq<Row>, contentType: string)

  /** How the PUT ends: it raises, or the server answers with a status. */
  datatype PutResult = Raised | Responded(status: int)

  /** How `update_ticket_with_attachment` ends. */
  datatype UpdateOutcome = ReadFailed | PutRaised | Updated(status: int) | Rejected(status: int)

  /** The statuses that count as a successful update. */
  predicate UpdateSucceeded(status: int)
    ensures UpdateSucceeded(status) <==> status in {200, 201}
  {
    status == 200 || status == 201
  }

  /** How the update ends, from whether the file could be read and how the
      PUT ended: the file is deleted exactly on a 200 or 201 answer. */
  function UpdateResult(readable: bool, put: PutResult): (o: UpdateOutcome)
    ensures o.Updated? <==> readable && put.Responded? && UpdateSucceeded(put.status)
    ensures o == ReadFailed <==> !readable
    ensures o == PutRaised <==> readable && put.Raised?
    ensures o.Rejected? ==> put.Responded? && o.status == put.status && !UpdateSucceeded(o.status)
    ensures o.Updated? ==> o.status == put.status
  {
    if !readable then ReadFailed
    else match put
      case Raised => PutRaised
      case Responded(status) => if UpdateSucceeded(status) then Updated(status) else Rejected(status)
  }

  /** `update_ticket_with_attachment(ticket_id, file_path)`. `put` is how
      the PUT ends, used only when the PUT is sent. */
  method UpdateTicketWithAttachment(disk: Disk, ticket: int, path: string, put: PutResult)
    returns (sent: Option<AttachmentPut>, outcome: UpdateOutcome)
    modifies disk
    ensures outcome == UpdateResult(path in old(disk.files), put)
    ensures sent.Some? <==> path in old(disk.files)
    ensures path in old(disk.files) ==>
      sent == Some(AttachmentPut(ticket, "1", Basename(path), old(disk.files)[path], "application/octet-stream"))
    ensures disk.files == if outcome.Updated? then old(disk.files) - {path} else old(disk.files)
  {
    if path !in disk.files {
      return None, ReadFailed;
    }
    var fileData := disk.files[path];
    var request := AttachmentPut(ticket, "1", Basename(path), fileData, "application/octet-stream");
    sent := Some(request);
    if put.Raised? {
      return sent, PutRaised;
    }
    if UpdateSucceeded(put.status) {
      disk.files := disk.files - {path};
      outcome := Updated(put.status);
    } else {
      outcome := Rejected(put.status);
    }
  }
}
