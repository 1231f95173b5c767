/** The serverless handler that turns an uploaded LinkedIn PDF into work-experience
    records (api/process-linkedin-pdf.js): the guard before the model call, the
    save step that maps job objects to Airtable records, and the handler's chain of
    responses. Form parsing, the PDF library, the model service and Airtable are
    inputs: what they returned is given, and what was sent to them is part of the
    outcome. */
module LinkedinHandler {
  import opened Wrappers
  import opened Text
  import opened Json
  import ExperienceText

  // ---------------------------------------------------------------------------
  // The model call

  /** What the chat-completion request produced: the first choice's content (absent
      when there is none), or a failure with the details the error carried
      (`error.response.data` stringified, else `error.message`). */
  datatype ModelReply =
    | Replied(content: Option<string>)
    | RequestFailed(details: Option<string>)

  const ModelFailurePrefix := "Failed to process text with OpenAI."

  function ModelFailure(details: Option<string>): string {
    match details
    case Some(d) => ModelFailurePrefix + " Details: " + d
    case None => ModelFailurePrefix
  }

  /** `callOpenAIForExperienceJson`: blank text is refused before any request; an
      empty reply or a reply that does not parse is reported as a model failure. */
  function CallModel(text: string, reply: ModelReply, parse: JsonParse): (r: Result<Value, string>)
    ensures Trim(text) == "" ==> r == Failure("No text provided to OpenAI for processing.")
    ensures r.Success? ==>
      (Trim(text) != "" && reply.Replied? && reply.content.Some?
       && reply.content.value != "" && parse(reply.content.value) == Success(r.value))
    ensures Trim(text) != "" && reply.RequestFailed? ==> r == Failure(ModelFailure(reply.details))
    ensures Trim(text) != "" && reply.Replied? && (reply.content.None? || reply.content.value == "") ==>
      r == Failure(ModelFailure(Some("OpenAI returned an empty response content.")))
    ensures Trim(text) != "" && reply.Replied? && reply.content.Some? && reply.content.value != "" ==>
      && (parse(reply.content.value).Success? ==> r == Success(parse(reply.content.value).value))
      && (parse(reply.content.value).Failure? ==> r == Failure(ModelFailure(Some(parse(reply.content.value).error))))
  {
    if Trim(text) == "" then Failure("No text provided to OpenAI for processing.")
    else
      match reply
      case RequestFailed(details) => Failure(ModelFailure(details))
      case Replied(content) =>
        if content.None? || content.value == "" then
          Failure(ModelFailure(Some("OpenAI returned an empty response content.")))
        else
          match parse(content.value)
          case Success(v) => Success(v)
          case Failure(syntaxMessage) => Failure(ModelFailure(Some(syntaxMessage)))
  }

  /** Blank text never reaches the model: the outcome does not depend on the reply. */
  lemma BlankTextIgnoresReply(text: string, r1: ModelReply, r2: ModelReply, p1: JsonParse, p2: JsonParse)
    requires Trim(text) == ""
    ensures CallModel(text, r1, p1) == CallModel(text, r2, p2)
    ensures CallModel(text, r1, p1).Failure?
  {
  }

  // ---------------------------------------------------------------------------
  // Saving to Airtable

  /** One record of the single POST to the 'Work Experience' table. A field whose
      job property is absent is `None` (JSON.stringify drops it). */
  datatype WorkRecord = WorkRecord(
    company: Option<Value>,      // 'Company'          <- job.Company
    role: Option<Value>,         // 'Role'             <- job['Role Held at the Company']
    startDate: Option<Value>,    // 'Start Date'       <- job['Start Date']
    endDate: Option<Value>,      // 'End Date'         <- job['End Date']
    description: Option<Value>,  // 'Description'      <- job['Brief Description']
    employeeLinks: seq<string>   // 'Employee Database'
  )

  /** An error thrown by the JavaScript engine itself (reading a property of `null`,
      calling `map` on something that is not an array); its wording is not modelled. */
  datatype Thrown = Message(text: string) | TypeError

  /** The fields of one job object, linked to the employee. A property read on a
      non-object gives `undefined`. */
  function ToRecord(job: Value, employeeRecordId: string): WorkRecord
    requires !job.Null?
  {
    WorkRecord(
      Property(job, "Company"),
      Property(job, "Role Held at the Company"),
      Property(job, "Start Date"),
      Property(job, "End Date"),
      Property(job, "Brief Description"),
      [employeeRecordId])
  }

  /** `jobExperiences.map(job => ({ fields: ... }))`: one record per job, in order; a
      `null` job makes the property read throw. */
  function MapRecords(jobs: seq<Value>, employeeRecordId: string): (r: Result<seq<WorkRecord>, Thrown>)
    ensures r.Failure? <==> exists i :: 0 <= i < |jobs| && jobs[i].Null?
    ensures r.Failure? ==> r.error == TypeError
    ensures r.Success? ==> |r.value| == |jobs|
    ensures r.Success? ==> forall i :: 0 <= i < |jobs| ==>
      && r.value[i].employeeLinks == [employeeRecordId]
      && r.value[i].company == Property(jobs[i], "Company")
      && r.value[i].role == Property(jobs[i], "Role Held at the Company")
      && r.value[i].startDate == Property(jobs[i], "Start Date")
      && r.value[i].endDate == Property(jobs[i], "End Date")
      && r.value[i].description == Property(jobs[i], "Brief Description")
  {
    if jobs == [] then Success([])
    else if jobs[0].Null? then Failure(TypeError)
    else
      match MapRecords(jobs[1..], employeeRecordId)
      case Failure(e) => Failure(e)
      case Success(rest) => Success([ToRecord(jobs[0], employeeRecordId)] + rest)
  }

  /** The response to the POST: `response.ok` and `response.status`. */
  datatype HttpReply = HttpReply(ok: bool, status: int)

  /** The save status the handler reports: a skip with its message, or the POST's
      outcome. */
  datatype SaveStatus =
    | Skipped(success: bool, message: string)
    | Posted(success: bool, status: int)

  /** What a save reports, and the records it POSTed, if any. */
  datatype SaveOutcome = SaveOutcome(status: SaveStatus, request: Option<seq<WorkRecord>>)

  /** `!x` on an optional string: absent or empty. */
  predicate Blank(x: Option<string>) {
    x.None? || x.value == ""
  }

  /** `saveExperienceToAirtable`: credentials are checked first, then the employee
      id; the job list is mapped (which throws on a non-array or a `null` job); an
      empty list is a success without a request; otherwise all records go in one
      POST. */
  function SaveExperience(credentialsSet: bool, employeeRecordId: Option<string>, jobExperiences: Value,
                          reply: HttpReply): (r: Result<SaveOutcome, Thrown>)
    ensures !credentialsSet ==>
      r == Success(SaveOutcome(Skipped(false, "Airtable credentials not configured on server."), None))
    ensures credentialsSet && Blank(employeeRecordId) ==>
      r == Success(SaveOutcome(Skipped(false, "Employee Record ID not provided."), None))
    ensures r.Success? && r.value.request.Some? ==>
      && credentialsSet && !Blank(employeeRecordId) && jobExperiences.Array?
      && 0 < |r.value.request.value| == |jobExperiences.elems|
      && r.value.status == Posted(reply.ok, reply.status)
    ensures r.Success? && r.value.request.None? && r.value.status.success ==> jobExperiences == Array([])
  {
    if !credentialsSet then
      Success(SaveOutcome(Skipped(false, "Airtable credentials not configured on server."), None))
    else if Blank(employeeRecordId) then
      Success(SaveOutcome(Skipped(false, "Employee Record ID not provided."), None))
    else if !jobExperiences.Array? then Failure(TypeError)
    else
      match MapRecords(jobExperiences.elems, employeeRecordId.value)
      case Failure(e) => Failure(e)
      case Success(records) =>
        if |records| == 0 then Success(SaveOutcome(Skipped(true, "No job experiences to save."), None))
        else Success(SaveOutcome(Posted(reply.ok, reply.status), Some(records)))
  }

  /** An empty job list succeeds without any request, once credentials and id are set. */
  lemma EmptyListSavesNothing(employeeRecordId: string, reply: HttpReply)
    requires employeeRecordId != ""
    ensures SaveExperience(true, Some(employeeRecordId), Array([]), reply)
      == Success(SaveOutcome(Skipped(true, "No job experiences to save."), None))
  {
  }

  /** A list without `null` jobs is POSTed whole: one record per job, in order, each
      linked to exactly this employee. */
  lemma SavePostsEveryJob(employeeRecordId: string, jobs: seq<Value>, reply: HttpReply)
    requires employeeRecordId != "" && jobs != []
    requires forall i :: 0 <= i < |jobs| ==> !jobs[i].Null?
    ensures var r := SaveExperience(true, Some(employeeRecordId), Array(jobs), reply);
      && r.Success? && r.value.request.Some? && r.value.status == Posted(reply.ok, reply.status)
      && |r.value.request.value| == |jobs|
      && forall i :: 0 <= i < |jobs| ==> r.value.request.value[i] == ToRecord(jobs[i], employeeRecordId)
  {
    var m := MapRecords(jobs, employeeRecordId);
    assert m.Success?;
  }

  // ---------------------------------------------------------------------------
  // The handler

  /** `experienceJson.job_experiences.length > 0` for a value that is already truthy:
      arrays and strings by their length, an object by a numeric or boolean `length`
      field; anything else has an undefined length. */
  predicate HasLength(v: Value) {
    match v
    case Array(elems) => |elems| > 0
    case Str(s) => |s| > 0
    case Object(fields) =>
      "length" in fields && (
        || (fields["length"].Number? && fields["length"].n > 0.0)
        || (fields["length"].Bool? && fields["length"].b))
    case _ => false
  }

  /** The job list the handler would save: the reply's `job_experiences`, when it is
      truthy and has a positive length. */
  function JobsToSave(experienceJson: Value): (r: Option<Value>)
    ensures r.Some? ==>
      (experienceJson.Object? && "job_experiences" in experienceJson.fields
       && r.value == experienceJson.fields["job_experiences"] && Truthy(r.value) && HasLength(r.value))
  {
    if !Truthy(experienceJson) then None
    else
      match Property(experienceJson, "job_experiences")
      case Some(jobs) => if Truthy(jobs) && HasLength(jobs) then Some(jobs) else None
      case None => None
  }

  /** The three settings read from the environment. */
  datatype Config = Config(openAiKey: Option<string>, airtableBaseId: Option<string>, airtablePat: Option<string>)

  predicate Configured(cfg: Config) {
    !Blank(cfg.openAiKey) && !Blank(cfg.airtableBaseId) && !Blank(cfg.airtablePat)
  }

  /** The uploaded file as formidable describes it. */
  datatype Upload = Upload(filepath: string)

  /** What the form parser delivered. */
  datatype Request = Request(
    httpMethod: string,
    formError: Option<string>,
    linkedinPdf: Option<Upload>,
    employeeRecordId: Option<string>
  )

  /** Reading and parsing the PDF: a read failure with its message, a PDF.js failure
      with the error's name and message, or the item strings of each page. */
  datatype PdfInput =
    | Unreadable(message: string)
    | Unparsable(name: string, message: string)
    | Pages(pages: seq<seq<string>>)

  /** What the outside world answers during one request. */
  datatype World = World(
    pdf: PdfInput,
    endOfSection: ExperienceText.Pattern,
    modelReply: ModelReply,
    parse: JsonParse,
    airtableReply: HttpReply
  )

  /** The body of a response. */
  datatype Body =
    | MethodNotAllowed
    | ErrorBody(error: string, details: Option<Thrown>, saveStatus: Option<SaveStatus>)
    | Extracted(experience: Value, airtableSaveStatus: SaveStatus)

  /** The response and the side effects: the text sent to the model, the records
      POSTed, and whether the temporary upload is deleted. */
  datatype Outcome = Outcome(
    status: int,
    body: Body,
    modelInput: Option<string>,
    posted: Option<seq<WorkRecord>>,
    deletesUpload: bool
  )

  /** The experience text, or the error the PDF step throws. */
  function ReadExperience(pdf: PdfInput, endOfSection: ExperienceText.Pattern): (r: Result<string, string>)
    ensures pdf.Pages? <==> r.Success?
    ensures pdf.Pages? ==> r.value == ExperienceText.ExperienceSection(ExperienceText.DocumentText(pdf.pages), endOfSection)
  {
    match pdf
    case Unreadable(message) => Failure(message)
    case Unparsable(name, message) =>
      Failure("Failed to parse PDF content. Original error: " + name + " - " + message)
    case Pages(pages) => Success(ExperienceText.ExperienceSection(ExperienceText.DocumentText(pages), endOfSection))
  }

  const ProcessingFailed := "Failed to process PDF for experience extraction"
  const NotAttempted := Skipped(false, "Save to Airtable not attempted.")
  const BeforeSave := Skipped(false, "Error occurred before Airtable save attempt.")

  function Processing(e: Thrown, modelInput: Option<string>, deletes: bool): Outcome {
    Outcome(500, ErrorBody(ProcessingFailed, Some(e), Some(BeforeSave)), modelInput, None, deletes)
  }

  /** The text is long enough to be worth a model call. */
  predicate Sufficient(text: string) {
    text != "" && |Trim(text)| >= 50
  }

  /** The part of the handler inside `try`/`finally`, once a PDF was uploaded. */
  function Process(req: Request, w: World, deletes: bool): (r: Outcome)
    ensures r.status == 200 || r.status == 400 || r.status == 500
    ensures r.deletesUpload == deletes
    ensures r.modelInput.Some? ==> Sufficient(r.modelInput.value)
    ensures r.posted.Some? ==> (!Blank(req.employeeRecordId) && r.posted.value != [])
    ensures r.status == 200 ==> r.body.Extracted?
    ensures r.status == 200 && r.posted.Some? ==> JobsToSave(r.body.experience).Some?
    ensures r.status == 200 && r.posted.None? ==> !r.body.airtableSaveStatus.success
  {
    match ReadExperience(w.pdf, w.endOfSection)
    case Failure(m) => Processing(Message(m), None, deletes)
    case Success(text) =>
      if !Sufficient(text) then
        Outcome(400, ErrorBody("Could not extract sufficient experience text from the PDF.",
          Some(Message("The 'Experience' section might be missing, unclear, or too short.")), None),
          None, None, deletes)
      else
        match CallModel(text, w.modelReply, w.parse)
        case Failure(m) => Processing(Message(m), Some(text), deletes)
        case Success(json) => Answer(req, w, text, json, deletes)
  }

  /** The save decision and the 200 answer once the model's JSON is parsed. */
  function Answer(req: Request, w: World, text: string, json: Value, deletes: bool): (r: Outcome)
    ensures r.status == 200 || r.status == 500
    ensures r.deletesUpload == deletes && r.modelInput == Some(text)
    ensures r.posted.Some? ==> (!Blank(req.employeeRecordId) && r.posted.value != [])
    ensures r.status == 200 ==> r.body.Extracted? && r.body.experience == json
    ensures r.status == 200 && r.posted.Some? ==> JobsToSave(json).Some?
    ensures r.status == 200 && r.posted.None? ==> !r.body.airtableSaveStatus.success
    ensures r.status == 500 ==> r.posted.None? && JobsToSave(json).Some? && !Blank(req.employeeRecordId)
    ensures JobsToSave(json).None? ==> r.status == 200 && r.body == Extracted(json, NotAttempted) && r.posted.None?
    ensures JobsToSave(json).Some? && Blank(req.employeeRecordId) ==>
      && r.status == 200 && r.posted.None?
      && r.body == Extracted(json, Skipped(false, "Employee ID not provided for Airtable linking."))
    ensures JobsToSave(json).Some? && !Blank(req.employeeRecordId) ==>
      var saved := SaveExperience(true, req.employeeRecordId, JobsToSave(json).value, w.airtableReply);
      && (r.status == 500 <==> saved.Failure?)
      && (saved.Failure? ==> r == Processing(saved.error, Some(text), deletes))
      && (saved.Success? ==> r.body == Extracted(json, saved.value.status) && r.posted == saved.value.request)
  {
    match JobsToSave(json)
    case None => Outcome(200, Extracted(json, NotAttempted), Some(text), None, deletes)
    case Some(jobs) =>
      if Blank(req.employeeRecordId) then
        Outcome(200, Extracted(json, Skipped(false, "Employee ID not provided for Airtable linking.")),
          Some(text), None, deletes)
      else
        match SaveExperience(true, req.employeeRecordId, jobs, w.airtableReply)
        case Failure(e) => Processing(e, Some(text), deletes)
        case Success(saved) => Outcome(200, Extracted(json, saved.status), Some(text), saved.request, deletes)
  }

  /** `handler(req, res)`: method, configuration, form and upload checks in that
      order, then the processing; the upload is deleted after processing whenever it
      has a path. */
  function Handler(req: Request, cfg: Config, w: World): (r: Outcome)
    ensures req.httpMethod != "POST" ==> r.status == 405 && r.body == MethodNotAllowed
    ensures req.httpMethod == "POST" && !Configured(cfg) ==> r.status == 500
    ensures r.modelInput.Some? ==> Sufficient(r.modelInput.value)
    ensures r.posted.Some? ==> !Blank(req.employeeRecordId) && r.posted.value != []
    ensures r.deletesUpload <==>
      (req.httpMethod == "POST" && Configured(cfg) && req.formError.None?
       && req.linkedinPdf.Some? && req.linkedinPdf.value.filepath != "")
  {
    if req.httpMethod != "POST" then Outcome(405, MethodNotAllowed, None, None, false)
    else if !Configured(cfg) then
      Outcome(500, ErrorBody("Server configuration error",
        Some(Message("OpenAI API key not configured or client not initialized.")), None), None, None, false)
    else if req.formError.Some? then
      Outcome(500, ErrorBody("Failed to parse form data", Some(Message(req.formError.value)), None), None, None, false)
    else if req.linkedinPdf.None? then
      Outcome(400, ErrorBody("No PDF file uploaded. Ensure the file input name is \"linkedinPdf\".", None, None),
        None, None, false)
    else
      Process(req, w, req.linkedinPdf.value.filepath != "")
  }

  /** A save is attempted only for a non-empty job list and a present employee id;
      every other 200 reports an unsuccessful skip. */
  lemma SaveOnlyWithJobsAndId(req: Request, cfg: Config, w: World)
    ensures var r := Handler(req, cfg, w);
      r.status == 200 ==>
        (r.body.Extracted? && (
          || (r.posted.Some? && JobsToSave(r.body.experience).Some? && !Blank(req.employeeRecordId))
          || (r.posted.None? && !r.body.airtableSaveStatus.success)))
  {
    if req.httpMethod == "POST" && Configured(cfg) && req.formError.None? && req.linkedinPdf.Some? {
      var r := Process(req, w, req.linkedinPdf.value.filepath != "");
      assert Handler(req, cfg, w) == r;
    }
  }

  /** Text that is empty or, once trimmed, shorter than 50 characters is answered
      with 400 and the model is never asked. */
  lemma ShortTextNotSent(req: Request, cfg: Config, w: World)
    requires req.httpMethod == "POST" && Configured(cfg) && req.formError.None? && req.linkedinPdf.Some?
    requires w.pdf.Pages?
    requires !Sufficient(ExperienceText.ExperienceSection(ExperienceText.DocumentText(w.pdf.pages), w.endOfSection))
    ensures Handler(req, cfg, w).status == 400
    ensures Handler(req, cfg, w).modelInput.None?
  {
  }

  /** A request without an employee id but with jobs still answers 200 with the
      extracted JSON, and says the link was skipped. */
  lemma MissingIdStillAnswers(req: Request, cfg: Config, w: World)
    requires req.httpMethod == "POST" && Configured(cfg) && req.formError.None? && req.linkedinPdf.Some?
    requires Blank(req.employeeRecordId)
    requires w.pdf.Pages?
    requires var text := ExperienceText.ExperienceSection(ExperienceText.DocumentText(w.pdf.pages), w.endOfSection);
      Sufficient(text) && CallModel(text, w.modelReply, w.parse).Success?
      && JobsToSave(CallModel(text, w.modelReply, w.parse).value).Some?
    ensures var r := Handler(req, cfg, w);
      && r.status == 200 && r.posted.None?
      && r.body.Extracted?
      && r.body.airtableSaveStatus == Skipped(false, "Employee ID not provided for Airtable linking.")
  {
  }
}
