/** The whole run of the script: normalise the base URL, fetch the
    contract's assets, write the report file, attach it to the ticket and
    delete it after a successful update. */
module ContractAssets {
  import opened Records
  import opened Pagination
  import opened Resolution
  import opened Resolvers
  import opened Report
  import opened Naming
  import opened Attachment

  /** The report's rows: the contract's assets, fetched page by page, each
      resolved through getters whose caches start empty. */
  method BuildReport(pages: seq<PageReply>, server: Server)
    returns (requests: seq<PageRequest>, table: seq<Row>)
    ensures |requests| == StopIndex(pages) + 1
    ensures forall i :: 0 <= i < |requests| ==> requests[i] == PageRequest(ContractId, i + 1, PerPage)
    ensures table == [Header] + Rows(Collected(pages), server, Empty).0
  {
    var assets;
    assets, requests := FetchAssets(pages);
    var resolver := new ReferenceResolver();
    table := WriteRows(assets, server, resolver);
  }

  /** One run. The clock's year and month, the page replies, the lookup
      server and the PUT's ending are the run's inputs from outside. */
  method Run(domain: string, ticket: int, year: nat, month: nat,
             pages: seq<PageReply>, server: Server, put: PutResult, disk: Disk)
    returns (baseUrl: string, requests: seq<PageRequest>, table: seq<Row>,
             sent: Option<AttachmentPut>, outcome: UpdateOutcome)
    requires 1000 <= year <= 9999 && 1 <= month <= 12
    modifies disk
    ensures baseUrl == BaseUrl(domain)
    ensures |requests| == StopIndex(pages) + 1
    ensures forall i :: 0 <= i < |requests| ==> requests[i] == PageRequest(ContractId, i + 1, PerPage)
    ensures table == [Header] + Rows(Collected(pages), server, Empty).0
    ensures var name := CsvFileName(year, month, LeaseNumber);
      && sent == Some(AttachmentPut(ticket, "1", name, table, "application/octet-stream"))
      && outcome == UpdateResult(true, put)
      && disk.files == if outcome.Updated? then old(disk.files) - {name} else old(disk.files)[name := table]
  {
    baseUrl := BaseUrl(domain);
    requests, table := BuildReport(pages, server);
    var name := ReportFileName(year, month);
    ghost var before := disk.files;
    disk.files := disk.files[name := table];
    assert name in disk.files;
    sent, outcome := UpdateTicketWithAttachment(disk, ticket, name, put);
    if outcome.Updated? {
      OverwriteThenRemove(before, name, table);
    }
  }

  /** Writing a file and then deleting it leaves the directory as it was,
      less any earlier file of the same name. */
  lemma OverwriteThenRemove<K, V>(m: map<K, V>, k: K, v: V)
    ensures m[k := v] - {k} == m - {k}
  {
    assert (m[k := v] - {k}).Keys == (m - {k}).Keys;
  }
}
