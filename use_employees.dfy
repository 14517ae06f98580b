/**
 * The employee hook (src/hooks/useEmployees.tsx): the employee list and error message it
 * keeps, driven by the employee service.
 */
module UseEmployees {
  import opened Js
  import opened Types
  import EmployeeService

  const DeleteError := "Error al eliminar el empleado"

  /** What `fetchEmployees().then(setEmployees)` stores: the list, or `undefined` (None) when
      the fetch failed, since the service resolves to `undefined` instead of rejecting. */
  function Loaded(response: Response<seq<Employee>>): (r: Option<seq<Employee>>)
    ensures r.Some? <==> response.Ok?
    ensures r.Some? ==> r.value == response.record
  {
    match EmployeeService.FetchEmployees(response)
    case Value(list) => Some(list)
    case Undefined => None
    case Thrown(_) => None
  }

  /** The state of the hook. `employees` is None once a failed load stored `undefined`. */
  class EmployeesHook {
    var employees: Option<seq<Employee>>
    var error: string

    constructor ()
      ensures employees == Some([]) && error == ""
    {
      employees := Some([]);
      error := "";
    }

    /** The mount-time load. The `catch` with 'Error al cargar empleados' can never run,
        because the service never rejects: the error is untouched whatever happens. */
    method Load(response: Response<seq<Employee>>)
      modifies this
      ensures employees == Loaded(response) && error == old(error)
    {
      employees := Loaded(response);
    }

    /** `addEmployee`. The service PUTs the current list plus the new record; its result is
        adopted and the error cleared. A failed save, and a hook whose list is `undefined`
        (spreading it throws), show the save error. */
    method AddEmployee(newEmployee: Employee, sha256: string -> string, response: Response<seq<Employee>>)
      returns (sent: Option<seq<Employee>>)
      modifies this
      ensures sent == if old(employees).Some? then Some(EmployeeService.SaveBody(old(employees).value, newEmployee, sha256)) else None
      ensures old(employees).Some? && response.Ok? ==> employees == Some(response.record) && error == ""
      ensures old(employees).None? || !response.Ok? ==>
        employees == old(employees) && error == EmployeeService.SaveEmployeeError
    {
      if employees.None? {
        error := EmployeeService.SaveEmployeeError;
        return None;
      }
      sent := Some(EmployeeService.SaveBody(employees.value, newEmployee, sha256));
      var outcome := EmployeeService.SaveEmployee(response);
      if outcome.Value? {
        employees := Some(outcome.value);
        error := "";
      } else {
        error := EmployeeService.SaveEmployeeError;
      }
    }

    /** `removeEmployee`. The service PUTs the list without the id; on success (an empty list
        is still truthy) it is adopted and the error cleared; a failure, and a hook whose
        list is `undefined` (filtering it throws), show the delete error. */
    method RemoveEmployee(id: int, response: Response<()>) returns (sent: Option<seq<Employee>>)
      modifies this
      ensures sent == if old(employees).Some? then Some(EmployeeService.WithoutEmployee(old(employees).value, id)) else None
      ensures old(employees).Some? && response.Ok? ==>
        employees == Some(EmployeeService.WithoutEmployee(old(employees).value, id)) && error == ""
      ensures old(employees).None? || !response.Ok? ==> employees == old(employees) && error == DeleteError
    {
      if employees.None? {
        error := DeleteError;
        return None;
      }
      sent := Some(EmployeeService.WithoutEmployee(employees.value, id));
      var outcome := EmployeeService.DeleteEmployee(id, employees.value, response);
      if outcome.Value? {
        employees := Some(outcome.value);
        error := "";
      } else {
        error := DeleteError;
      }
    }

    /** The `setError` the hook hands out. */
    method SetError(message: string)
      modifies this`error
      ensures error == message
    {
      error := message;
    }
  }
}
