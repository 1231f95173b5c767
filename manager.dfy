/** The manager portal (src/manager.js): the employee list is loaded page by page and
    sorted by name, shown as one card per employee, and edited through a PATCH after
    which the refetched record replaces the first entry with the same id. The
    module's `employees`, `skills` and `traits` are the fields of `ManagerPortal`. */
module Manager {
  import opened Wrappers
  import opened Records
  import Paging

  /** A 'Skills' or 'Traits' record: its id and its name. */
  datatype Named = Named(id: string, name: Option<string>)

  /** One card of the grid: the name and title it shows and the id its Edit button
      opens. */
  datatype Card = Card(name: string, title: string, recordId: string)

  function CardOf(e: Employee): Card {
    Card(NameOf(e), e.jobTitle.GetOr(""), e.id)
  }

  /** A field value of the update payload. */
  datatype FieldValue = Text(text: string) | Links(ids: seq<string>)

  const PayloadKeys: set<string> :=
    {"Employee Name", "Job Title", "Department", "Location", "Skills List", "Personality Traits"}

  /** The `upd` object sent by the Save button, from the form's values. */
  function EditPayload(name: string, title: string, department: string, location: string,
                       skills: seq<string>, traits: seq<string>): (m: map<string, FieldValue>)
    ensures m.Keys == PayloadKeys
    ensures m["Employee Name"] == Text(name) && m["Job Title"] == Text(title)
    ensures m["Department"] == Text(department) && m["Location"] == Text(location)
    ensures m["Skills List"] == Links(skills) && m["Personality Traits"] == Links(traits)
  {
    map["Employee Name" := Text(name), "Job Title" := Text(title), "Department" := Text(department),
        "Location" := Text(location), "Skills List" := Links(skills), "Personality Traits" := Links(traits)]
  }

  /** `employees.findIndex(e => e.id === recordId)`. */
  function FirstIndex(es: seq<Employee>, recordId: string): (r: int)
    ensures -1 <= r < |es|
    ensures r >= 0 ==> es[r].id == recordId
    ensures forall i :: 0 <= i < |es| && (r == -1 || i < r) ==> es[i].id != recordId
  {
    if es == [] then -1
    else if es[0].id == recordId then 0
    else
      var r := FirstIndex(es[1..], recordId);
      assert forall i :: 1 <= i < |es| ==> es[i] == es[1..][i - 1];
      if r == -1 then -1 else r + 1
  }

  /** The list after `if (idx !== -1) employees[idx] = updated`. */
  function ReplaceFirst(es: seq<Employee>, recordId: string, updated: Employee): seq<Employee> {
    var idx := FirstIndex(es, recordId);
    if idx == -1 then es else es[idx := updated]
  }

  /** Only the first entry with the id is replaced; the length and every other entry
      stay, and without a match nothing changes. */
  lemma ReplaceFirstSpec(es: seq<Employee>, recordId: string, updated: Employee)
    ensures var r := ReplaceFirst(es, recordId, updated);
      && |r| == |es|
      && ((forall i :: 0 <= i < |es| ==> es[i].id != recordId) ==> r == es)
      && forall i :: 0 <= i < |es| ==>
           if es[i].id == recordId && forall j :: 0 <= j < i ==> es[j].id != recordId
           then r[i] == updated else r[i] == es[i]
  {
  }

  /** How a PATCH ended: a response with `ok` and its stringified JSON, or a rejected
      request with its error message. */
  datatype PatchReply = Answered(ok: bool, resultJson: string) | Rejected(message: string)

  class ManagerPortal {
    var employees: seq<Employee>
    var skills: seq<Named>
    var traits: seq<Named>

    constructor ()
      ensures employees == [] && skills == [] && traits == []
    {
      employees := [];
      skills := [];
      traits := [];
    }

    /** `loadData`: every employee page until one has no offset, sorted by name; then
        one page of skills and one of traits. */
    method LoadData(pages: seq<Paging.Page<Employee>>, skillRecords: seq<Named>, traitRecords: seq<Named>)
      requires Paging.Terminates(pages)
      modifies this
      ensures employees == SortByName(Paging.Loaded(pages))
      ensures skills == skillRecords && traits == traitRecords
    {
      var all, _ := Paging.FetchAll(pages);
      employees := SortByName(all);
      skills := skillRecords;
      traits := traitRecords;
    }

    /** `renderGrid`: the empty message alone for an empty list, else one card per
        employee in list order. */
    method RenderGrid() returns (cards: seq<Card>, emptyShown: bool)
      ensures emptyShown <==> employees == []
      ensures |cards| == |employees|
      ensures forall i :: 0 <= i < |cards| ==> cards[i] == CardOf(employees[i])
    {
      cards := [];
      if |employees| == 0 {
        return cards, true;
      }
      emptyShown := false;
      var i := 0;
      while i < |employees|
        invariant 0 <= i <= |employees|
        invariant |cards| == i
        invariant forall k :: 0 <= k < i ==> cards[k] == CardOf(employees[k])
      {
        cards := cards + [CardOf(employees[i])];
        i := i + 1;
      }
    }

    /** The Save button: a failed PATCH is reported and nothing changes; otherwise
        the refetched record replaces the first entry with the id. Returns the
        alert shown, if any. */
    method EditSave(recordId: string, reply: PatchReply, updated: Employee) returns (alert: Option<string>)
      modifies this
      ensures skills == old(skills) && traits == old(traits)
      ensures reply.Rejected? ==> alert == Some("Failed to save changes: " + reply.message) && employees == old(employees)
      ensures reply.Answered? && !reply.ok ==>
        alert == Some("Failed to save changes: " + reply.resultJson) && employees == old(employees)
      ensures reply.Answered? && reply.ok ==>
        alert == None && employees == ReplaceFirst(old(employees), recordId, updated)
    {
      match reply {
        case Rejected(message) =>
          return Some("Failed to save changes: " + message);
        case Answered(ok, resultJson) =>
          if !ok {
            return Some("Failed to save changes: " + resultJson);
          }
      }
      var idx := FirstIndex(employees, recordId);
      if idx != -1 {
        employees := employees[idx := updated];
      }
      alert := None;
    }
  }
}
