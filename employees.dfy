/**
 * The admin's employee page (src/components/Employees.tsx): the list it shows, the local
 * delete, the create form's validation, and the save it sends to the JSON store.
 */
module Employees {
  import opened Js
  import opened Types
  import EmployeeService

  const RequiredFieldsError := "Todos los campos son obligatorios"

  /** The empty create form: id 0, every text field empty, role 'employee'. */
  const EmptyDraft := Employee(0, "", "", "", "", "", EmployeeRole)

  /** A character of `[^\s@]`. */
  predicate PlainChar(c: char) {
    !IsWhitespace(c) && c != '@'
  }

  /** `[^\s@]+`: a non-empty run of plain characters. */
  predicate PlainRun(s: string) {
    |s| > 0 && forall i :: 0 <= i < |s| ==> PlainChar(s[i])
  }

  /** `/^[^\s@]+@[^\s@]+\.[^\s@]+$/.test(email)`: the address splits at an '@' at position
      `at` and a '.' at position `dot` into three non-empty plain runs. The domain run may
      itself contain dots; the pattern matches when any such split exists. */
  predicate IsEmailValid(email: string)
    ensures IsEmailValid(email) ==> |email| >= 5
  {
    exists at, dot :: 0 <= at < |email| && 0 <= dot < |email| && SplitsAt(email, at, dot)
  }

  /** The split of `email` at an '@' at `at` and a '.' at `dot` into three plain runs. */
  predicate SplitsAt(email: string, at: int, dot: int) {
    0 < at && at + 1 < dot && dot + 1 < |email| && email[at] == '@' && email[dot] == '.'
      && PlainRun(email[..at]) && PlainRun(email[at + 1..dot]) && PlainRun(email[dot + 1..])
  }

  /** Every valid address is a local part, '@', a domain, '.', and a last label, each a
      non-empty run without whitespace or '@'. */
  lemma EmailParts(email: string) returns (local: string, domain: string, tld: string)
    requires IsEmailValid(email)
    ensures email == local + "@" + domain + "." + tld
    ensures PlainRun(local) && PlainRun(domain) && PlainRun(tld)
  {
    var at, dot :| 0 <= at < |email| && 0 <= dot < |email| && SplitsAt(email, at, dot);
    local, domain, tld := email[..at], email[at + 1..dot], email[dot + 1..];
    assert email[..at + 1] == local + "@";
    assert email[..dot] == email[..at + 1] + domain;
    assert email[..dot + 1] == email[..dot] + ".";
    assert email == email[..dot + 1] + tld;
  }

  /** Conversely, every such concatenation is accepted. */
  lemma EmailFromParts(local: string, domain: string, tld: string)
    requires PlainRun(local) && PlainRun(domain) && PlainRun(tld)
    ensures IsEmailValid(local + "@" + domain + "." + tld)
  {
    var email := local + "@" + domain + "." + tld;
    var at, dot := |local|, |local| + 1 + |domain|;
    assert email[..at] == local;
    assert email[at + 1..dot] == domain;
    assert email[dot + 1..] == tld;
    assert email[at] == '@' && email[dot] == '.';
    assert SplitsAt(email, at, dot);
  }

  /** A valid address has no whitespace and exactly one '@'. */
  lemma EmailHasOneAt(email: string) returns (at: nat)
    requires IsEmailValid(email)
    ensures forall i :: 0 <= i < |email| ==> !IsWhitespace(email[i])
    ensures at < |email| && email[at] == '@'
    ensures forall i :: 0 <= i < |email| && email[i] == '@' ==> i == at
  {
    var dot;
    at, dot :| 0 <= at < |email| && 0 <= dot < |email| && SplitsAt(email, at, dot);
    forall i | 0 <= i < |email| ensures !IsWhitespace(email[i]) && (email[i] == '@' ==> i == at) {
      if i < at {
        assert email[i] == email[..at][i];
      } else if at < i < dot {
        assert email[i] == email[at + 1..dot][i - at - 1];
      } else if dot < i {
        assert email[i] == email[dot + 1..][i - dot - 1];
      }
    }
  }

  /** `isFormValid`: every text field is non-empty and the address passes the pattern; the
      Guardar button is disabled otherwise. */
  predicate IsFormValid(draft: Employee)
    ensures IsFormValid(draft) ==> |draft.email| >= 5
  {
    Truthy(draft.name) && Truthy(draft.email) && Truthy(draft.position)
      && Truthy(draft.username) && Truthy(draft.password) && IsEmailValid(draft.email)
  }

  /** The check inside `handleCreateEmployee`: only name, email and position must be
      non-empty. */
  predicate PassesCreateCheck(draft: Employee)
    ensures PassesCreateCheck(draft) ==> draft != EmptyDraft
  {
    Truthy(draft.name) && Truthy(draft.email) && Truthy(draft.position)
  }

  /** A form the button lets through always passes the handler's own check, and the empty
      form passes neither. */
  lemma EnabledFormPassesCreateCheck(draft: Employee)
    ensures IsFormValid(draft) ==> PassesCreateCheck(draft)
    ensures !IsFormValid(EmptyDraft) && !PassesCreateCheck(EmptyDraft)
  {
  }

  /** The state of the employee page. */
  class EmployeesPage {
    var employees: seq<Employee>
    var showForm: bool
    var newEmployee: Employee
    var error: string

    constructor ()
      ensures employees == [] && !showForm && newEmployee == EmptyDraft && error == ""
    {
      employees := [];
      showForm := false;
      newEmployee := EmptyDraft;
      error := "";
    }

    /** The page's own mount-time fetch: an ok response shows its `record`, or nothing when
        the body has none; a non-ok or rejected one is only logged. */
    method Load(response: Response<Option<seq<Employee>>>)
      modifies this`employees
      ensures employees == if response.Ok? then response.record.GetOr([]) else old(employees)
    {
      if response.Ok? {
        employees := response.record.GetOr([]);
      }
    }

    /** Crear Empleado and Cancelar. */
    method SetShowForm(show: bool)
      modifies this`showForm
      ensures showForm == show
    {
      showForm := show;
    }

    /** Each input of the form replaces one field of the draft. */
    method SetNewEmployee(draft: Employee)
      modifies this`newEmployee
      ensures newEmployee == draft
    {
      newEmployee := draft;
    }

    /** `handleDeleteEmployee`: removes the employee from the page's list only; nothing is
        sent to the store, so the employee returns on the next load. */
    method HandleDeleteEmployee(id: int)
      modifies this`employees
      ensures employees == EmployeeService.WithoutEmployee(old(employees), id)
    {
      employees := EmployeeService.WithoutEmployee(employees, id);
    }

    /** `handleCreateEmployee`. Without a name, email or position nothing is sent and the
        required-fields error is shown. Otherwise the current list plus the new record
        (length-based id, hashed password) is PUT: an ok response adopts the stored list,
        closes and empties the form and clears the error; a non-ok one shows the save
        error; a rejected fetch escapes the handler and changes nothing. */
    method HandleCreateEmployee(sha256: string -> string, response: Response<seq<Employee>>) returns (sent: Option<seq<Employee>>)
      modifies this
      ensures sent == if PassesCreateCheck(old(newEmployee))
                      then Some(EmployeeService.SaveBody(old(employees), old(newEmployee), sha256)) else None
      ensures !PassesCreateCheck(old(newEmployee)) ==>
        error == RequiredFieldsError && employees == old(employees) && showForm == old(showForm) && newEmployee == old(newEmployee)
      ensures PassesCreateCheck(old(newEmployee)) && response.Ok? ==>
        employees == response.record && !showForm && newEmployee == EmptyDraft && error == ""
      ensures PassesCreateCheck(old(newEmployee)) && response.NotOk? ==>
        error == EmployeeService.SaveEmployeeError && employees == old(employees) && showForm == old(showForm) && newEmployee == old(newEmployee)
      ensures PassesCreateCheck(old(newEmployee)) && response.Rejected? ==>
        error == old(error) && employees == old(employees) && showForm == old(showForm) && newEmployee == old(newEmployee)
    {
      if !PassesCreateCheck(newEmployee) {
        error := RequiredFieldsError;
        return None;
      }
      sent := Some(EmployeeService.SaveBody(employees, newEmployee, sha256));
      match response {
        case Ok(record) =>
          employees := record;
          showForm := false;
          newEmployee := EmptyDraft;
          error := "";
        case NotOk =>
          error := EmployeeService.SaveEmployeeError;
        case Rejected(_) =>
      }
    }
  }
}
