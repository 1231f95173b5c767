/** An `Employee Database` record as the directory pages read it: its id and the
    fields they look at, each possibly absent. */
module Records {
  import opened Wrappers
  import Ordering

  datatype Employee = Employee(
    id: string,
    name: Option<string>,         // 'Employee Name'
    jobTitle: Option<string>,     // 'Job Title'
    department: Option<string>,   // 'Department'
    location: Option<string>,     // 'Location'
    skills: Option<seq<string>>,  // 'Skills List' (linked Skills ids)
    traits: Option<seq<string>>,  // 'Personality Traits' (linked Traits ids)
    clients: Option<seq<string>>  // 'Client Experience' (linked ids)
  )

  /** `f['Employee Name'] || ''`. */
  function NameOf(e: Employee): string {
    e.name.GetOr("")
  }

  /** `.sort((a, b) => NameOf(a).localeCompare(NameOf(b)))`. */
  function SortByName(es: seq<Employee>): (r: seq<Employee>)
    ensures multiset(r) == multiset(es)
    ensures Ordering.SortedBy(r, NameOf)
  {
    Ordering.SortBy(es, NameOf)
  }
}
