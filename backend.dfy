/**
 * The state the list and agent controllers work on: the agent roster,
 * the distribution store and the temporary upload files, with the
 * upload handler, `distribute`, `getLists`, `addAgent` and `getAgents`
 * as methods. Store calls that can fail take their outcome as a
 * parameter.
 */
module Backend {
  import opened Wrappers
  import opened JsObject
  import opened FileType
  import opened Records
  import opened Distribution

  /** An agent document; `password` holds the hash. */
  datatype Agent = Agent(id: AgentId, name: string, email: string, mobile: string, password: string)

  /** The agent as `addAgent` returns it: the document without its password. */
  datatype PublicAgent = PublicAgent(id: AgentId, name: string, email: string, mobile: string)

  /**
   * The `data` field of a stored document as `lean()` returns it: an
   * array of items, `null` or absent, or some other value.
   */
  datatype ListData = Items(items: seq<Obj>) | Nullish | NotArray

  /** `Array.isArray(list.data) ? list.data : ...`, as the normaliser sees it. */
  function ArrayOf(d: ListData): (r: Option<seq<Obj>>)
    ensures r.Some? <==> d.Items?
    ensures d.Items? ==> r.value == d.items
  {
    if d.Items? then Some(d.items) else None
  }

  /** A document of the distribution store. */
  datatype StoredList = StoredList(agentId: AgentId, data: ListData)

  /**
   * Whether the log lines of `getLists` throw: they read `data.length`
   * of every stored list, which fails on `null` or `undefined`.
   */
  predicate HasNullData(lists: seq<StoredList>)
  {
    exists i :: 0 <= i < |lists| && lists[i].data.Nullish?
  }

  /** One list as `getLists` answers it. */
  datatype ListView = ListView(agentId: AgentId, data: seq<Record>)

  datatype Summary = Summary(totalRecords: nat, agentsCount: nat, recordsPerAgent: nat, distributionsCreated: nat)

  /** The answer to an upload. */
  datatype Reply =
    | Distributed(summary: Summary)         // 200 'Data distributed successfully'
    | Refused(status: nat, message: string) // an error answer with its status
    | DistributionFailed(error: string)     // 500 'Failed to distribute data'

  /** The uploaded file as multer hands it on. */
  datatype UploadedFile = UploadedFile(originalName: string, path: string)

  /** Which store calls of one `distribute` run fail. */
  datatype StoreFaults = StoreFaults(findError: Option<string>, deleteFails: bool, insertFails: bool)

  /** The answer to `addAgent`. */
  datatype AgentReply = Created(agent: PublicAgent) | AgentRefused(status: nat, message: string)

  const NoAgentsMessage := "No agents found to distribute the data"
  const DeleteFailedMessage := "Failed to clear previous distributions"
  const InsertFailedMessage := "Failed to save distributions to database"
  const MissingFieldsMessage := "Please provide all required fields: name, email, mobile, and password"
  const DuplicateEmailMessage := "An agent with this email already exists"
  const AddFailedMessage := "Failed to add agent"
  const FetchListsFailedMessage := "Error fetching lists"

  function AgentIds(agents: seq<Agent>): (ids: seq<AgentId>)
    ensures |ids| == |agents| && forall i :: 0 <= i < |agents| ==> ids[i] == agents[i].id
  {
    seq(|agents|, i requires 0 <= i < |agents| => agents[i].id)
  }

  /** The documents `insertMany` writes for a plan: each record as `{ firstName, phone, notes }`. */
  function StoreOf(ds: seq<Distribution>): (stored: seq<StoredList>)
    ensures |stored| == |ds|
    ensures forall i :: 0 <= i < |ds| ==> stored[i] == StoredList(ds[i].agentId, Items(CanonicalObjs(ds[i].data)))
  {
    seq(|ds|, i requires 0 <= i < |ds| => StoredList(ds[i].agentId, Items(CanonicalObjs(ds[i].data))))
  }

  /** What `getLists` answers for the stored documents. */
  function Views(lists: seq<StoredList>): (views: seq<ListView>)
    ensures |views| == |lists|
    ensures forall i :: 0 <= i < |lists| ==> views[i] == ListView(lists[i].agentId, NormaliseData(ArrayOf(lists[i].data)))
  {
    seq(|lists|, i requires 0 <= i < |lists| => ListView(lists[i].agentId, NormaliseData(ArrayOf(lists[i].data))))
  }

  /** `getLists` after a successful run shows each agent exactly the records it was given. */
  lemma ViewsOfStore(ds: seq<Distribution>)
    ensures !HasNullData(StoreOf(ds))
    ensures |Views(StoreOf(ds))| == |ds|
    ensures forall i :: 0 <= i < |ds| ==> Views(StoreOf(ds))[i] == ListView(ds[i].agentId, ds[i].data)
  {
    forall i | 0 <= i < |ds|
      ensures NormaliseData(ArrayOf(StoreOf(ds)[i].data)) == ds[i].data
    {
      NormaliseDataCanonical(ds[i].data);
      assert CanonicalObjs(ds[i].data) == seq(|ds[i].data|, k requires 0 <= k < |ds[i].data| => CanonicalObj(ds[i].data[k]));
    }
  }

  /** No two agents share an email. */
  predicate UniqueEmails(agents: seq<Agent>)
  {
    forall i, j :: 0 <= i < j < |agents| ==> agents[i].email != agents[j].email
  }

  predicate HasEmail(agents: seq<Agent>, email: string)
  {
    exists i :: 0 <= i < |agents| && agents[i].email == email
  }

  /** The records the upload handler passes to `distribute` once reading succeeded. */
  function UploadedRecords(ext: string, events: seq<CsvEvent>, book: Workbook): seq<Record>
    requires ReadRecords(ext, events, book).Ok?
  {
    if ext == "csv" then CsvRecords(CsvStreamResult(events).value) else ExcelRecords(book.sheets[0])
  }

  class Store {
    var agents: seq<Agent>
    var lists: seq<StoredList>
    var files: set<string>

    constructor (agents0: seq<Agent>, lists0: seq<StoredList>, files0: set<string>)
      ensures agents == agents0 && lists == lists0 && files == files0
    {
      agents := agents0;
      lists := lists0;
      files := files0;
    }

    /** `if (fs.existsSync(path)) fs.unlinkSync(path)`: a second attempt changes nothing. */
    method RemoveIfExists(path: string)
      modifies this
      ensures files == old(files) - {path}
      ensures path !in old(files) ==> files == old(files)
      ensures agents == old(agents) && lists == old(lists)
    {
      if path in files {
        files := files - {path};
      }
    }

    /**
     * The effect of one `distribute` run: the roster is only read; with
     * no agents nothing is touched (the temporary file stays); a failed
     * delete leaves the old distributions; a failed insert leaves none;
     * on success the store holds exactly the new plan and the file is gone.
     */
    twostate predicate DistributeEffect(records: seq<Record>, path: string, faults: StoreFaults, reply: Reply)
      reads this
    {
      && agents == old(agents)
      && var ids := AgentIds(old(agents));
         if faults.findError.Some? then
           reply == DistributionFailed(faults.findError.value) && lists == old(lists) && files == old(files)
         else if ids == [] then
           reply == Refused(400, NoAgentsMessage) && lists == old(lists) && files == old(files)
         else if faults.deleteFails then
           reply == DistributionFailed(DeleteFailedMessage) && lists == old(lists) && files == old(files)
         else if faults.insertFails then
           reply == DistributionFailed(InsertFailedMessage) && lists == [] && files == old(files)
         else
           var plan := Plan(records, ids);
           && lists == StoreOf(plan)
           && files == old(files) - {path}
           && reply == Distributed(Summary(|records|, |ids|, ChunkSize(|records|, |ids|), |plan|))
    }

    /** `distribute`: read the roster, clear the store, partition, insert, delete the upload. */
    method Distribute(records: seq<Record>, path: string, faults: StoreFaults) returns (reply: Reply)
      modifies this
      ensures DistributeEffect(records, path, faults, reply)
    {
      if faults.findError.Some? {
        return DistributionFailed(faults.findError.value);
      }
      var ids := AgentIds(agents);
      if |ids| == 0 {
        return Refused(400, NoAgentsMessage);
      }
      if faults.deleteFails {
        return DistributionFailed(DeleteFailedMessage);
      }
      lists := [];
      var chunkSize, distributions := BuildDistributions(records, ids);
      if faults.insertFails {
        return DistributionFailed(InsertFailedMessage);
      }
      lists := StoreOf(distributions);
      RemoveIfExists(path);
      reply := Distributed(Summary(|records|, |ids|, chunkSize, |distributions|));
    }

    /**
     * The upload handler: extension check, reading, column check,
     * transform, then `distribute`. Both readers emit fixed keys, so the
     * 400 answers after reading never happen.
     */
    method UploadList(file: Option<UploadedFile>, events: seq<CsvEvent>, book: Workbook, faults: StoreFaults)
      returns (reply: Reply)
      modifies this
      ensures file.None? ==> reply == Refused(400, "No file uploaded")
                             && agents == old(agents) && lists == old(lists) && files == old(files)
      ensures file.Some? && ValidateFileType(file.value.originalName).Err? ==>
                reply == Refused(400, FileTypeMessage(ValidateFileType(file.value.originalName).error))
                && agents == old(agents) && lists == old(lists) && files == old(files) - {file.value.path}
      ensures file.Some? && ValidateFileType(file.value.originalName).Ok? ==>
                var ext := Extension(file.value.originalName);
                var read := ReadRecords(ext, events, book);
                && (read.Err? ==> reply == Refused(500, FailureMessage(read.error))
                                  && agents == old(agents) && lists == old(lists)
                                  && files == old(files) - {file.value.path})
                && (read.Ok? ==> DistributeEffect(UploadedRecords(ext, events, book), file.value.path, faults, reply))
    {
      if file.None? {
        return Refused(400, "No file uploaded");
      }
      var f := file.value;
      var ext := Extension(f.originalName);
      var checked := ValidateFileType(f.originalName);
      if checked.Err? {
        RemoveIfExists(f.path);
        return Refused(400, FileTypeMessage(checked.error));
      }
      var read := ReadRecords(ext, events, book);
      if read.Err? {
        if ext == "csv" {
          RemoveIfExists(f.path);
        }
        RemoveIfExists(f.path);
        return Refused(500, FailureMessage(read.error));
      }
      PipelineNeverReportsMissingColumns(ext, events, book);
      if ext == "csv" {
        CsvPipeline(events);
      } else {
        ExcelPipeline(book);
      }
      var prepared := Prepare(read.value);
      match prepared
      case FileEmpty =>
        assert false;
      case ColumnsNotFound(_) =>
        assert false;
      case Ready(recs) =>
        reply := Distribute(recs, f.path, faults);
    }

    /**
     * `getLists`: every stored list with its items normalised. A failed
     * query, or a list whose `data` is `null` or absent (the log lines
     * read its length first), ends in the 500 answer.
     */
    method GetLists(findFails: bool) returns (r: Result<seq<ListView>, string>)
      ensures findFails || HasNullData(lists) ==> r == Err(FetchListsFailedMessage)
      ensures !findFails && !HasNullData(lists) ==> r == Ok(Views(lists))
    {
      if findFails || HasNullData(lists) {
        return Err(FetchListsFailedMessage);
      }
      return Ok(Views(lists));
    }

    /**
     * `addAgent`: all four fields are required; the email must be new;
     * the password is stored hashed and left out of the answer.
     */
    method AddAgent(name: string, email: string, mobile: string, password: string,
                    hash: string -> string, newId: AgentId, findFails: bool, saveFails: bool)
      returns (reply: AgentReply)
      modifies this
      ensures lists == old(lists) && files == old(files)
      ensures name == "" || email == "" || mobile == "" || password == "" ==>
                reply == AgentRefused(400, MissingFieldsMessage) && agents == old(agents)
      ensures name != "" && email != "" && mobile != "" && password != "" && !findFails && HasEmail(old(agents), email) ==>
                reply == AgentRefused(400, DuplicateEmailMessage) && agents == old(agents)
      ensures name != "" && email != "" && mobile != "" && password != ""
              && (findFails || (!HasEmail(old(agents), email) && saveFails)) ==>
                reply == AgentRefused(500, AddFailedMessage) && agents == old(agents)
      ensures reply.AgentRefused? ==> agents == old(agents)
      ensures reply.Created? ==>
                && name != "" && email != "" && mobile != "" && password != ""
                && !HasEmail(old(agents), email)
                && agents == old(agents) + [Agent(newId, name, email, mobile, hash(password))]
                && reply.agent == PublicAgent(newId, name, email, mobile)
      ensures reply.Created? <==> name != "" && email != "" && mobile != "" && password != ""
                                  && !findFails && !HasEmail(old(agents), email) && !saveFails
      ensures UniqueEmails(old(agents)) ==> UniqueEmails(agents)
    {
      if name == "" || email == "" || mobile == "" || password == "" {
        return AgentRefused(400, MissingFieldsMessage);
      }
      if findFails {
        return AgentRefused(500, AddFailedMessage);
      }
      var i := 0;
      while i < |agents|
        invariant 0 <= i <= |agents|
        invariant forall j :: 0 <= j < i ==> agents[j].email != email
      {
        if agents[i].email == email {
          return AgentRefused(400, DuplicateEmailMessage);
        }
        i := i + 1;
      }
      if saveFails {
        return AgentRefused(500, AddFailedMessage);
      }
      var saved := Agent(newId, name, email, mobile, hash(password));
      agents := agents + [saved];
      reply := Created(PublicAgent(saved.id, saved.name, saved.email, saved.mobile));
    }

    /** `getAgents`: the roster as stored. */
    method GetAgents(findFails: bool) returns (r: Result<seq<Agent>, string>)
      ensures findFails ==> r == Err("Failed to fetch agents")
      ensures !findFails ==> r == Ok(agents)
    {
      if findFails {
        return Err("Failed to fetch agents");
      }
      return Ok(agents);
    }
  }
}
